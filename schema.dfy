/** The add-school form's schema: the rule each field must satisfy, and the message
    reported for each broken rule. Validation is a pure function of the submitted
    values; the email-syntax rule belongs to the validation library and enters as
    the parameter `isEmail`. */
module Schema {
  import opened Wrappers

  /** What the image input holds: nothing, or the chosen file (only its presence matters). */
  datatype Upload = NoFile | File(fileName: string)

  /** The values the form submits, one per registered input. */
  datatype SchoolForm = SchoolForm(
    name: string,
    address: string,
    city: string,
    state: string,
    contact: string,
    email_id: string,
    image: Upload)

  datatype Field = Name | Address | City | State | Contact | EmailId | Image

  /** One broken rule: the field it is reported against and its message. */
  datatype Issue = Issue(field: Field, message: string)

  predicate IsLengthField(k: Field) {
    k == Name || k == Address || k == City || k == State
  }

  predicate IsTextField(k: Field) {
    k != Image
  }

  /** The text a form holds for a text field. */
  function Text(f: SchoolForm, k: Field): (text: string)
    requires IsTextField(k)
  {
    match k
    case Name => f.name
    case Address => f.address
    case City => f.city
    case State => f.state
    case Contact => f.contact
    case EmailId => f.email_id
  }

  /** The form after the input registered for text field `k` now holds `text`. */
  function WithText(f: SchoolForm, k: Field, text: string): (g: SchoolForm)
    requires IsTextField(k)
    ensures Text(g, k) == text
    ensures forall j | IsTextField(j) && j != k :: Text(g, j) == Text(f, j)
    ensures g.image == f.image
  {
    match k
    case Name => f.(name := text)
    case Address => f.(address := text)
    case City => f.(city := text)
    case State => f.(state := text)
    case Contact => f.(contact := text)
    case EmailId => f.(email_id := text)
  }

  function MinLength(k: Field): (lo: nat)
    requires IsLengthField(k)
  {
    match k
    case Name => 2
    case Address => 10
    case City => 2
    case State => 2
  }

  function MaxLength(k: Field): (hi: nat)
    requires IsLengthField(k)
  {
    match k
    case Name => 100
    case Address => 200
    case City => 50
    case State => 50
  }

  const NameTooShort: string := "School name must be at least 2 characters"
  const AddressTooShort: string := "Address must be at least 10 characters"
  const CityTooShort: string := "City name must be at least 2 characters"
  const StateTooShort: string := "State name must be at least 2 characters"
  const NameTooLong: string := "School name is too long"
  const AddressTooLong: string := "Address is too long"
  const CityTooLong: string := "City name is too long"
  const StateTooLong: string := "State name is too long"

  function TooShortMessage(k: Field): (msg: string)
    requires IsLengthField(k)
  {
    match k
    case Name => NameTooShort
    case Address => AddressTooShort
    case City => CityTooShort
    case State => StateTooShort
  }

  function TooLongMessage(k: Field): (msg: string)
    requires IsLengthField(k)
  {
    match k
    case Name => NameTooLong
    case Address => AddressTooLong
    case City => CityTooLong
    case State => StateTooLong
  }

  const ContactMessage: string := "Contact must be a 10-digit number"
  const EmailMessage: string := "Please enter a valid email address"

  /** A minimum-length check followed by a maximum-length check on a string: each check
      that fails contributes its own message, in that order. Lengths are raw (no trimming). */
  function LengthMessages(v: string, lo: nat, hi: nat, tooShort: string, tooLong: string): (msgs: seq<string>)
    ensures msgs == [] <==> lo <= |v| <= hi
    ensures |v| < lo ==> msgs[0] == tooShort
    ensures lo <= |v| ==> msgs == (if |v| > hi then [tooLong] else [])
    ensures lo <= hi ==> |msgs| <= 1
  {
    (if |v| < lo then [tooShort] else []) + (if |v| > hi then [tooLong] else [])
  }

  predicate IsDigit(c: char) {
    '0' <= c <= '9'
  }

  /** The anchored pattern `[0-9]{n}` matched left to right: `n` digits, then the end of the text. */
  predicate MatchesDigits(s: string, n: nat)
    ensures MatchesDigits(s, n) ==> |s| == n
    decreases n
  {
    if n == 0 then s == []
    else s != [] && IsDigit(s[0]) && MatchesDigits(s[1..], n - 1)
  }

  lemma {:induction false} MatchesDigitsIff(s: string, n: nat)
    ensures MatchesDigits(s, n) <==> |s| == n && forall i | 0 <= i < |s| :: IsDigit(s[i])
    decreases n
  {
    if n > 0 && s != [] {
      MatchesDigitsIff(s[1..], n - 1);
      if |s| == n && forall i | 0 <= i < |s| :: IsDigit(s[i]) {
        assert IsDigit(s[0]);
        forall i | 0 <= i < |s[1..]| ensures IsDigit(s[1..][i]) {
          assert s[1..][i] == s[i + 1];
        }
      }
      if MatchesDigits(s, n) {
        forall i | 0 <= i < |s| ensures IsDigit(s[i]) {
          if i > 0 {
            assert s[i] == s[1..][i - 1];
          }
        }
      }
    }
  }

  /** The contact rule: exactly ten characters, each a decimal digit. */
  function ContactMessages(c: string): (msgs: seq<string>)
    ensures msgs == [] <==> |c| == 10 && forall i | 0 <= i < |c| :: IsDigit(c[i])
    ensures msgs == [] || msgs == [ContactMessage]
  {
    MatchesDigitsIff(c, 10);
    if MatchesDigits(c, 10) then [] else [ContactMessage]
  }

  /** The messages the schema reports for field `k` of `f`; each depends on that field only. */
  function FieldMessages(k: Field, f: SchoolForm, isEmail: string -> bool): (msgs: seq<string>)
    ensures |msgs| <= 1
    ensures k == Image ==> msgs == []
    ensures IsLengthField(k) ==> (msgs == [] <==> MinLength(k) <= |Text(f, k)| <= MaxLength(k))
    ensures k == EmailId ==> (msgs == [] <==> isEmail(f.email_id))
  {
    match k
    case Name | Address | City | State =>
      LengthMessages(Text(f, k), MinLength(k), MaxLength(k), TooShortMessage(k), TooLongMessage(k))
    case Contact => ContactMessages(f.contact)
    case EmailId => if isEmail(f.email_id) then [] else [EmailMessage]
    case Image => []
  }

  /** Each message of `msgs`, reported against field `k`. */
  function Tagged(k: Field, msgs: seq<string>): (issues: seq<Issue>)
    ensures |issues| == |msgs|
    ensures forall i | 0 <= i < |msgs| :: issues[i] == Issue(k, msgs[i])
  {
    seq(|msgs|, i requires 0 <= i < |msgs| => Issue(k, msgs[i]))
  }

  /** The whole schema: every field is checked, in declaration order, and every broken
      rule is reported; one field's failure does not stop the others from being checked. */
  function Validate(f: SchoolForm, isEmail: string -> bool): (issues: seq<Issue>)
    ensures issues == [] <==> Passes(f, isEmail)
  {
    Tagged(Name, FieldMessages(Name, f, isEmail))
    + (Tagged(Address, FieldMessages(Address, f, isEmail))
    + (Tagged(City, FieldMessages(City, f, isEmail))
    + (Tagged(State, FieldMessages(State, f, isEmail))
    + (Tagged(Contact, FieldMessages(Contact, f, isEmail))
    + (Tagged(EmailId, FieldMessages(EmailId, f, isEmail))
    + Tagged(Image, FieldMessages(Image, f, isEmail)))))))
  }

  /** The schema's acceptance condition, written out field by field. */
  predicate Passes(f: SchoolForm, isEmail: string -> bool) {
    && 2 <= |f.name| <= 100
    && 10 <= |f.address| <= 200
    && 2 <= |f.city| <= 50
    && 2 <= |f.state| <= 50
    && |f.contact| == 10 && (forall i | 0 <= i < |f.contact| :: IsDigit(f.contact[i]))
    && isEmail(f.email_id)
  }

  /** The messages reported against field `k`, in order. */
  function MessagesFor(issues: seq<Issue>, k: Field): (msgs: seq<string>) {
    if issues == [] then []
    else (if issues[0].field == k then [issues[0].message] else []) + MessagesFor(issues[1..], k)
  }

  /** The message shown next to field `k`: the first one reported against it. */
  function ShownError(issues: seq<Issue>, k: Field): (shown: Option<string>)
    ensures shown.None? <==> forall i | 0 <= i < |issues| :: issues[i].field != k
    ensures shown.Some? ==> exists i | 0 <= i < |issues| ::
              issues[i] == Issue(k, shown.value) && forall j | 0 <= j < i :: issues[j].field != k
  {
    FirstMessageFor(issues, k);
    var msgs := MessagesFor(issues, k);
    if msgs == [] then None else Some(msgs[0])
  }

  /** Field `k` has messages iff some issue is reported against it, and the first message
      is that of the earliest such issue. */
  lemma {:induction false} FirstMessageFor(issues: seq<Issue>, k: Field)
    ensures MessagesFor(issues, k) == [] <==> forall i | 0 <= i < |issues| :: issues[i].field != k
    ensures MessagesFor(issues, k) != [] ==> exists i | 0 <= i < |issues| ::
              issues[i] == Issue(k, MessagesFor(issues, k)[0]) && forall j | 0 <= j < i :: issues[j].field != k
  {
    if issues != [] {
      var rest := issues[1..];
      FirstMessageFor(rest, k);
      if issues[0].field != k {
        assert MessagesFor(issues, k) == MessagesFor(rest, k);
        if MessagesFor(rest, k) != [] {
          var i :| 0 <= i < |rest| && rest[i] == Issue(k, MessagesFor(rest, k)[0])
                   && forall j | 0 <= j < i :: rest[j].field != k;
          assert issues[i + 1] == rest[i];
          forall j | 0 <= j < i + 1 ensures issues[j].field != k {
            if j > 0 {
              assert issues[j] == rest[j - 1];
            }
          }
        } else {
          forall i | 0 <= i < |issues| ensures issues[i].field != k {
            if i > 0 {
              assert issues[i] == rest[i - 1];
            }
          }
        }
      } else {
        assert MessagesFor(issues, k)[0] == issues[0].message;
        assert issues[0] == Issue(k, issues[0].message);
      }
    }
  }

  lemma {:induction false} MessagesForConcat(a: seq<Issue>, b: seq<Issue>, k: Field)
    ensures MessagesFor(a + b, k) == MessagesFor(a, k) + MessagesFor(b, k)
  {
    if a != [] {
      assert (a + b)[1..] == a[1..] + b;
      MessagesForConcat(a[1..], b, k);
    } else {
      assert a + b == b;
    }
  }

  lemma {:induction false} MessagesForTagged(j: Field, msgs: seq<string>, k: Field)
    ensures MessagesFor(Tagged(j, msgs), k) == if j == k then msgs else []
  {
    if msgs != [] {
      assert Tagged(j, msgs)[1..] == Tagged(j, msgs[1..]);
      MessagesForTagged(j, msgs[1..], k);
      if j == k {
        assert msgs == [msgs[0]] + msgs[1..];
      }
    }
  }

  /** Reporting a field's messages and then the rest: the field's share for `k`, then the rest's. */
  lemma MessagesForTaggedThen(j: Field, msgs: seq<string>, rest: seq<Issue>, k: Field)
    ensures MessagesFor(Tagged(j, msgs) + rest, k) == (if j == k then msgs else []) + MessagesFor(rest, k)
  {
    MessagesForConcat(Tagged(j, msgs), rest, k);
    MessagesForTagged(j, msgs, k);
  }

  /** What the schema reports against field `k` is exactly that field's own messages. */
  lemma ValidateMessages(f: SchoolForm, isEmail: string -> bool, k: Field)
    ensures MessagesFor(Validate(f, isEmail), k) == FieldMessages(k, f, isEmail)
  {
    var t1 := Tagged(Name, FieldMessages(Name, f, isEmail));
    var t2 := Tagged(Address, FieldMessages(Address, f, isEmail));
    var t3 := Tagged(City, FieldMessages(City, f, isEmail));
    var t4 := Tagged(State, FieldMessages(State, f, isEmail));
    var t5 := Tagged(Contact, FieldMessages(Contact, f, isEmail));
    var t6 := Tagged(EmailId, FieldMessages(EmailId, f, isEmail));
    var t7 := Tagged(Image, FieldMessages(Image, f, isEmail));
    MessagesForTaggedThen(Image, FieldMessages(Image, f, isEmail), [], k);
    assert t7 + [] == t7;
    MessagesForTaggedThen(EmailId, FieldMessages(EmailId, f, isEmail), t7, k);
    MessagesForTaggedThen(Contact, FieldMessages(Contact, f, isEmail), t6 + t7, k);
    MessagesForTaggedThen(State, FieldMessages(State, f, isEmail), t5 + (t6 + t7), k);
    MessagesForTaggedThen(City, FieldMessages(City, f, isEmail), t4 + (t5 + (t6 + t7)), k);
    MessagesForTaggedThen(Address, FieldMessages(Address, f, isEmail), t3 + (t4 + (t5 + (t6 + t7))), k);
    MessagesForTaggedThen(Name, FieldMessages(Name, f, isEmail), t2 + (t3 + (t4 + (t5 + (t6 + t7)))), k);
  }

  /** Two forms agree on field `k`. */
  predicate SameField(f: SchoolForm, g: SchoolForm, k: Field) {
    if k == Image then f.image == g.image else Text(f, k) == Text(g, k)
  }

  /** Field independence: the verdict on a field depends only on that field's value. */
  lemma FieldIndependence(f: SchoolForm, g: SchoolForm, isEmail: string -> bool, k: Field)
    requires SameField(f, g, k)
    ensures MessagesFor(Validate(f, isEmail), k) == MessagesFor(Validate(g, isEmail), k)
  {
    ValidateMessages(f, isEmail, k);
    ValidateMessages(g, isEmail, k);
  }

  /** The optional, unconstrained image never causes a rejection, whatever it holds. */
  lemma ImageNeverRejects(f: SchoolForm, isEmail: string -> bool, u: Upload)
    ensures MessagesFor(Validate(f, isEmail), Image) == []
    ensures Validate(f.(image := u), isEmail) == Validate(f, isEmail)
  {
    ValidateMessages(f, isEmail, Image);
  }

  /** A length-checked field shows the too-short message exactly when it is shorter than its
      minimum, the too-long message exactly when it is longer than its maximum, and nothing
      when it is within bounds; the two messages never apply together. */
  lemma LengthRuleMessages(f: SchoolForm, isEmail: string -> bool, k: Field)
    requires IsLengthField(k)
    ensures ShownError(Validate(f, isEmail), k) == Some(TooShortMessage(k)) <==> |Text(f, k)| < MinLength(k)
    ensures ShownError(Validate(f, isEmail), k) == Some(TooLongMessage(k)) <==> |Text(f, k)| > MaxLength(k)
    ensures ShownError(Validate(f, isEmail), k) == None <==> MinLength(k) <= |Text(f, k)| <= MaxLength(k)
    ensures |MessagesFor(Validate(f, isEmail), k)| <= 1
  {
    ValidateMessages(f, isEmail, k);
  }

  /** The contact field shows its message exactly when it is not ten decimal digits. */
  lemma ContactRuleMessage(f: SchoolForm, isEmail: string -> bool)
    ensures ShownError(Validate(f, isEmail), Contact) == Some(ContactMessage)
            <==> !(|f.contact| == 10 && forall i | 0 <= i < |f.contact| :: IsDigit(f.contact[i]))
    ensures ShownError(Validate(f, isEmail), Contact) == None || ShownError(Validate(f, isEmail), Contact) == Some(ContactMessage)
  {
    ValidateMessages(f, isEmail, Contact);
  }

  /** The email field shows its message exactly when the email check rejects it. */
  lemma EmailRuleMessage(f: SchoolForm, isEmail: string -> bool)
    ensures ShownError(Validate(f, isEmail), EmailId) == (if isEmail(f.email_id) then None else Some(EmailMessage))
  {
    ValidateMessages(f, isEmail, EmailId);
  }

  /** Ten digits pass; nine digits, or a letter among ten characters, do not. */
  lemma ContactExamples()
    ensures ContactMessages("9876543210") == []
    ensures ContactMessages("987654321") == [ContactMessage]
    ensures ContactMessages("98765432a0") == [ContactMessage]
  {
    assert !IsDigit("98765432a0"[8]);
  }
}
