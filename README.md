# School registry front-end: validation and local store

This project models the data-handling core of a small school-registry web front-end.
The core has two parts.

The **add-school form** checks each submitted field against a schema:
- `name` must have 2 to 100 characters, `address` 10 to 200, `city` and `state` 2 to 50;
- `contact` must be exactly ten decimal digits;
- `email_id` must pass the validation library's email check;
- `image` is optional and unconstrained.

Each broken rule has its own message. When the form passes, the page appends a new record
to the list kept under the browser storage key `schools`. The record gets the timestamp as
its id, every submitted field, and the image preview or a fixed placeholder URL. On success
the form is reset. The `isSubmitting` flag is set for the whole submission.

The **schools list page** loads the list. A missing or empty key shows three demonstration
records and writes them to the key. A stored list is shown as it is. Text that does not
parse is logged, and the page keeps its initial empty list. Either way `loading` ends.
The page labels the count "School" or "Schools" and shows an empty state for an empty list.

Modules:
- `Schema` (schema.dfy): the field rules, their messages, and `Validate`.
- `Storage` (storage.dfy): the record type, the stored value, the demonstration list,
  the `Store` class with `Append` and `Load`, and the lemmas that relate loads and appends.
- `AddSchool` (add_school.dfy): the form page, with its values, preview and `isSubmitting`.
- `Schools` (schools.dfy): the list page, with its `schools` and `loading`, and the two
  display functions.
- `Wrappers` (wrappers.dfy): `Option`.

The stored JSON text is abstracted as `Stored = Absent | EmptyText | Present(records) | Corrupt`.
`EmptyText` is a key holding the empty string. Both pages treat it like a missing key.
Four things outside the model enter as parameters:
- the submission timestamp, as `now`;
- whether a storage write succeeds, as `writeOk`;
- the validation library's email check, as `isEmail`;
- the data URL the file reader produces for a chosen image, as `dataUrl`.

Four behaviours of the code that are easy to assume otherwise:
- No field is trimmed before validation; lengths are raw.
- A parse failure on load is not reported to the user. It is logged, and the page keeps
  its initial empty list.
- Record ids are timestamps, so two records can share an id.
- The stored image is never the uploaded file. It is the preview when one was read, else
  the placeholder.

## Model

| member | source | states |
|---|---|---|
| Schema.LengthMessages | app/add-school/page.js:17-20 | a string passes a min/max length rule iff its raw length is within bounds; too short yields the min message first, otherwise too long yields exactly the max message; at most one message when min ≤ max |
| Schema.MatchesDigitsIff | app/add-school/page.js:21 | the anchored pattern of n digits matches iff the text has length n and every character is a decimal digit |
| Schema.MatchesDigits | app/add-school/page.js:21 | text that matches the anchored pattern of n digits has length exactly n |
| Schema.ContactMessages | app/add-school/page.js:21 | contact passes iff it is exactly 10 characters, each '0'..'9'; otherwise exactly the contact message |
| Schema.WithText | app/add-school/page.js:31-39 | changing one registered input sets that field and leaves every other field and the image as they were |
| Schema.FieldMessages | app/add-school/page.js:17-23 | each field yields at most one message; a length field yields none iff its raw length is within its bounds; the email yields none iff the email check accepts it; the image never yields one |
| Schema.Validate | app/add-school/page.js:16-24 | the schema reports no issue iff all six field rules hold (lengths in bounds, 10 digits, email check) |
| Schema.ValidateMessages | app/add-school/page.js:16-24 | the issues reported against a field are exactly that field's own messages |
| Schema.FieldIndependence | app/add-school/page.js:16-24 | two forms that agree on a field get the same messages for it, whatever the other fields hold |
| Schema.ImageNeverRejects | app/add-school/page.js:23 | nothing is ever reported against the image, and changing the image never changes the verdict |
| Schema.LengthRuleMessages | app/add-school/page.js:17-20 | for name, address, city and state the shown error is the too-short message iff below the minimum, the too-long message iff above the maximum, none iff within bounds; never both |
| Schema.ContactRuleMessage | app/add-school/page.js:21 | the contact error is shown iff the contact is not ten digits, and it is the contact message |
| Schema.EmailRuleMessage | app/add-school/page.js:22 | the email error is shown iff the email check rejects the address |
| Schema.FirstMessageFor | app/add-school/page.js:139-140 | the messages for a field are empty iff no issue is against it; otherwise the first is the message of the earliest issue against it |
| Schema.ShownError | app/add-school/page.js:139-140 | no error is shown for a field iff no issue is against it; a shown error is the message of the earliest issue against that field |
| Schema.ContactExamples | app/add-school/page.js:21 | "9876543210" passes; "987654321" and "98765432a0" fail with the contact message |
| Storage.ListOrEmpty | app/add-school/page.js:69 | the append path reads a missing or empty key as the empty list, a stored list as itself, and fails only on corrupt text |
| Storage.AppendOutcome | app/add-school/page.js:69-76 | an append succeeds iff the text parses and the write succeeds; then the list grows by exactly one, earlier records unchanged, the new record last |
| Storage.LoadOutcomeOf | app/schools/page.js:16-63 | load shows nothing new iff the text is corrupt; a stored list is shown and not rewritten; a blank key shows the demo list; storage changes iff a blank key is met and the write succeeds, and then it holds the demo list |
| Storage.NewRecord | app/add-school/page.js:70-74 | the new record has the timestamp as id, carries exactly the submitted text fields, and its image is never empty: the preview or the placeholder |
| Storage.NewRecordFields | app/add-school/page.js:70-74 | the new record keeps every submitted field, has the timestamp as id, the preview if non-empty else the placeholder, and does not depend on the uploaded file |
| Storage.NewRecordPasses | app/add-school/page.js:70-74 | a record built from validated data satisfies the schema again |
| Storage.DemoContactDigits | app/schools/page.js:30-50 | each demo contact is ten decimal digits |
| Storage.DemoRecordPasses | app/schools/page.js:24-53 | a demo record whose email the email check accepts satisfies every field rule |
| Storage.DemoSchoolsValid | app/schools/page.js:23-54 | all three demo records satisfy the field rules, given that their emails pass the email check |
| Storage.DemoSchoolNames | app/schools/page.js:23-54 | the demo list has ids 1, 2, 3 and names "Greenwood High School", "Sunrise International School", "Blue Valley Academy", in order; ids pairwise distinct |
| Storage.LoadIdempotent | app/schools/page.js:18-56 | a second load shows the same list as the first; once the first load's write succeeded, the second writes nothing |
| Storage.StoredEmptyListNotReseeded | app/schools/page.js:18-20 | a stored empty list is shown empty and storage is left as it is |
| Storage.AppendThenLoad | app/add-school/page.js:69-76 | after a successful append, a load shows the earlier list plus the new record; after an append to a blank key, the new record alone with no demo records |
| Storage.SeedAppendLoad | app/schools/page.js:18-56 | seeding load, append, load shows the three demo records followed by the new one |
| Storage.AppendAllThenLoad | app/add-school/page.js:69-76 | after any non-empty run of successful appends, the key holds the first list read followed by every appended record in order, and a load shows exactly that |
| Storage.Store.constructor | app/add-school/page.js:69 | a store starts holding the given stored value under the key |
| Storage.Store.Append | app/add-school/page.js:69-76 | with validated data: succeeds iff the text parses and the write succeeds; then the key holds the old list plus the new record; otherwise the key is unchanged |
| Storage.Store.Load | app/schools/page.js:16-63 | shows and writes what LoadOutcomeOf describes for the key's old value |
| AddSchool.BlankForm | app/add-school/page.js:84 | the reset form has every text input empty and no file chosen |
| AddSchool.BlankFormRejected | app/add-school/page.js:17-21 | a reset form fails validation, showing the too-short message for name, address, city and state and the contact message |
| AddSchool.AddSchoolPage.constructor | app/add-school/page.js:27-28 | a new form page has an empty preview, no submission in progress, blank values |
| AddSchool.AddSchoolPage.Type | app/add-school/page.js:31-39 | an input change updates that field only |
| AddSchool.AddSchoolPage.ChooseImage | app/add-school/page.js:41-51 | choosing a file sets the form's image and the preview to the reader's data URL; no file changes nothing |
| AddSchool.AddSchoolPage.StartSubmit | app/add-school/page.js:53-54 | a submission starts only on values the schema accepts; it sets `isSubmitting` and works on those values and the preview of that moment, which pass the schema; nothing else changes |
| AddSchool.AddSchoolPage.FinishSubmit | app/add-school/page.js:53-96 | `isSubmitting` ends false; on success the store holds the old list plus the new record and the form and preview are reset; on failure store, form and preview are unchanged |
| Schools.CountLabel | app/schools/page.js:115 | the label is "School" iff the count is 1 and "Schools" iff it is not |
| Schools.ShowsEmptyState | app/schools/page.js:120 | the empty state is shown iff the list is empty |
| Schools.SchoolsPage.constructor | app/schools/page.js:11-12 | a new list page shows the empty list and is loading |
| Schools.SchoolsPage.LoadSchools | app/schools/page.js:14-66 | loading ends false; storage becomes what the load leaves; the page shows the loaded list, or keeps its list when the load throws |
| Schools.FirstVisitDisplay | app/schools/page.js:115-120 | a first visit (blank key) shows three schools, the plural label and no empty state; a stored empty list shows the empty state with the plural label |
| Schools.OpenWithCorruptStore | app/schools/page.js:58-62 | a fresh page meeting corrupt text keeps the empty list, shows the empty state, stops loading, and leaves storage untouched |

## Left out

- The home page and the layout: static markup, links, fonts and metadata, with no logic.
- All rendering except the count label and the empty-state test: cards, badges, icons, styles.
- The JSON encoding and the browser storage API. They are abstracted as `Stored`. `Corrupt` stands for text that does not parse.
- Stored text that parses to something other than a list of records is not modelled. The list page would take that value as its list. `null` then fails at the count badge's `.length`. A boolean, a number, a non-empty string or an object with a non-zero `length` fails at the cards' `.map`. A parsed empty string, or an object whose `length` is 0, is shown as the empty state. The append path would throw at the push.
- The email syntax rule of the validation library: it is not visible, so it is the parameter `isEmail`.
- The validation library's handling of non-string values and unknown keys: the form is a fixed record of strings and an upload.
- Storage.Store.Append, AddSchool.AddSchoolPage.StartSubmit and AddSchool.AddSchoolPage.FinishSubmit: the gate that calls the submit handler only when the schema passes is stated as a precondition, not modelled as a step.
- AddSchool.AddSchoolPage.ChooseImage: the asynchronous file read is collapsed into the change event; its result is the parameter `dataUrl`.
- The 1500 ms simulated backend wait is the split between `StartSubmit` and `FinishSubmit`; its timing is not modelled. Edits made during the wait are: `Type` and `ChooseImage` may run between the two steps, `FinishSubmit` stores the snapshot taken at the start, on success the reset discards those edits, and on failure they are kept.
- The success and error toasts appear only as `FinishSubmit`'s boolean result. The `console.error` log on a failed load is not modelled.
- The `FormData` object built from the submitted values: it is never used.
- Uniqueness of record ids: the timestamp `now` is a parameter, and two submissions in the same millisecond get the same id, so uniqueness is not claimed.
- String lengths count Dafny characters; the browser counts UTF-16 code units. The two agree only for text without characters outside the Basic Multilingual Plane.
