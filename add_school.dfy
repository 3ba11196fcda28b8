/** The add-school page: the form's current values, the image preview, the
    `isSubmitting` flag, and the submission that appends a record to the store.
    A submission runs in two steps, split at the simulated backend wait: the first
    sets the flag and takes the values the validated submit handler is called with;
    the second stores the record, resets the form on success, and clears the flag. */
module AddSchool {
  import opened Wrappers
  import opened Schema
  import opened Storage

  /** The form as it is after a reset: every input empty, no file chosen. */
  function BlankForm(): (f: SchoolForm)
    ensures forall k | IsTextField(k) :: Text(f, k) == []
    ensures f.image == NoFile
  {
    SchoolForm([], [], [], [], [], [], NoFile)
  }

  /** A reset form cannot be submitted again as it is: the name, address, city, state and
      contact rules all reject it, each with its own message. */
  lemma BlankFormRejected(isEmail: string -> bool)
    ensures Validate(BlankForm(), isEmail) != []
    ensures ShownError(Validate(BlankForm(), isEmail), Name) == Some(TooShortMessage(Name))
    ensures ShownError(Validate(BlankForm(), isEmail), Address) == Some(TooShortMessage(Address))
    ensures ShownError(Validate(BlankForm(), isEmail), City) == Some(TooShortMessage(City))
    ensures ShownError(Validate(BlankForm(), isEmail), State) == Some(TooShortMessage(State))
    ensures ShownError(Validate(BlankForm(), isEmail), Contact) == Some(ContactMessage)
  {
    LengthRuleMessages(BlankForm(), isEmail, Name);
    LengthRuleMessages(BlankForm(), isEmail, Address);
    LengthRuleMessages(BlankForm(), isEmail, City);
    LengthRuleMessages(BlankForm(), isEmail, State);
    ContactRuleMessage(BlankForm(), isEmail);
  }

  class AddSchoolPage {
    var values: SchoolForm
    var imagePreview: string
    var isSubmitting: bool
    const store: Store

    constructor (store: Store)
      ensures this.store == store
      ensures values == BlankForm() && imagePreview == [] && !isSubmitting
    {
      this.store := store;
      values := BlankForm();
      imagePreview := [];
      isSubmitting := false;
    }

    /** The input registered for text field `k` now holds `text`. */
    method Type(k: Field, text: string)
      requires IsTextField(k)
      modifies this`values
      ensures values == WithText(old(values), k, text)
    {
      values := WithText(values, k, text);
    }

    /** The image input changed. With a file, the form's image becomes that file and the
        preview becomes the data URL the file reader produced (given here as `dataUrl`);
        with no file, nothing changes. */
    method ChooseImage(file: Upload, dataUrl: string)
      modifies this`values, this`imagePreview
      ensures file.File? ==> values == old(values).(image := file) && imagePreview == dataUrl
      ensures file.NoFile? ==> values == old(values) && imagePreview == old(imagePreview)
    {
      if file.File? {
        values := values.(image := file);
        imagePreview := dataUrl;
      }
    }

    /** The submit handler starts: it is called only on values the schema accepts, the
        flag is set (the submit button is disabled while it is), and the handler works on
        the values and preview of this moment. */
    method StartSubmit(ghost isEmail: string -> bool) returns (data: SchoolForm, preview: string)
      requires !isSubmitting
      requires Validate(values, isEmail) == []
      modifies this`isSubmitting
      ensures isSubmitting
      ensures data == values && preview == imagePreview
      ensures Validate(data, isEmail) == []
    {
      isSubmitting := true;
      data := values;
      preview := imagePreview;
    }

    /** The submit handler finishes, after the wait: the record built from `data`, the
        timestamp `now` and `preview` is appended to the store. On success the form and
        the preview are reset; on failure (corrupt stored text, a failed write) they and
        the store are left as they were. Either way the flag ends cleared. */
    method FinishSubmit(data: SchoolForm, preview: string, now: int, writeOk: bool, ghost isEmail: string -> bool)
      returns (ok: bool)
      requires isSubmitting
      requires Validate(data, isEmail) == []
      modifies this, store
      ensures !isSubmitting
      ensures ok <==> !old(store.stored).Corrupt? && writeOk
      ensures ok ==> store.stored == Present(ListOrEmpty(old(store.stored)).value + [NewRecord(now, data, preview)])
      ensures !ok ==> store.stored == old(store.stored)
      ensures ok ==> values == BlankForm() && imagePreview == []
      ensures !ok ==> values == old(values) && imagePreview == old(imagePreview)
    {
      ok := store.Append(data, preview, now, writeOk, isEmail);
      if ok {
        values := BlankForm();
        imagePreview := [];
      }
      isSubmitting := false;
    }
  }
}
