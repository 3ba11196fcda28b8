/** The browser-local record store: the single storage key 'schools', which holds the
    list of school records as JSON text. The text is abstracted as `Stored`, with
    `Corrupt` standing for text that does not parse. Writing the key can fail (the
    storage quota); whether it does enters as the parameter `writeOk`. */
module Storage {
  import opened Wrappers
  import opened Schema

  /** A stored school record: the submitted fields, an id and an image URL. */
  datatype School = School(
    id: int,
    name: string,
    address: string,
    city: string,
    state: string,
    contact: string,
    email_id: string,
    image: string)

  /** What reading the key yields. `EmptyText` is a key that holds the empty string. */
  datatype Stored = Absent | EmptyText | Present(records: seq<School>) | Corrupt

  predicate IsBlank(s: Stored) {
    s.Absent? || s.EmptyText?
  }

  /** The image a new record gets when no preview was read. */
  const PlaceholderImage: string :=
    "https://images.pexels.com/photos/159490/yale-university-landscape-universities-schools-159490.jpeg?auto=compress&cs=tinysrgb&w=500"

  const Greenwood: School := School(
    1, "Greenwood High School", "123 Education Lane, Academic District",
    "Mumbai", "Maharashtra", "9876543210", "info@greenwood.edu",
    "https://images.pexels.com/photos/159490/yale-university-landscape-universities-schools-159490.jpeg?auto=compress&cs=tinysrgb&w=500")

  const Sunrise: School := School(
    2, "Sunrise International School", "456 Knowledge Street, Learning Hub",
    "Bangalore", "Karnataka", "9876543211", "contact@sunrise.edu",
    "https://images.pexels.com/photos/207692/pexels-photo-207692.jpeg?auto=compress&cs=tinysrgb&w=500")

  const BlueValley: School := School(
    3, "Blue Valley Academy", "789 Wisdom Avenue, Scholar's Quarter",
    "Chennai", "Tamil Nadu", "9876543212", "admin@bluevalley.edu",
    "https://images.pexels.com/photos/1454360/pexels-photo-1454360.jpeg?auto=compress&cs=tinysrgb&w=500")

  /** The three demonstration records the list page seeds an empty store with. */
  const DemoSchools: seq<School> := [Greenwood, Sunrise, BlueValley]

  /** The record a submission adds: the timestamp as id, every submitted field, and the
      image preview, or the placeholder when there is none; the uploaded file is dropped. */
  function NewRecord(now: int, data: SchoolForm, imagePreview: string): (r: School)
    ensures r.id == now
    ensures AsForm(r) == data.(image := NoFile)
    ensures r.image != [] && (r.image == imagePreview || r.image == PlaceholderImage)
  {
    School(now, data.name, data.address, data.city, data.state, data.contact, data.email_id,
           if imagePreview != [] then imagePreview else PlaceholderImage)
  }

  /** The submitted fields of a record, as a form without a file. */
  function AsForm(r: School): (f: SchoolForm) {
    SchoolForm(r.name, r.address, r.city, r.state, r.contact, r.email_id, NoFile)
  }

  /** The list the append path reads: a blank key reads as the empty list; corrupt text throws. */
  function ListOrEmpty(s: Stored): (list: Option<seq<School>>)
    ensures list.None? <==> s.Corrupt?
    ensures IsBlank(s) ==> list == Some([])
    ensures s.Present? ==> list == Some(s.records)
  {
    match s
    case Absent => Some([])
    case EmptyText => Some([])
    case Present(rs) => Some(rs)
    case Corrupt => None
  }

  /** What an append leaves under the key: `None` when it threw (the text did not parse,
      or the write failed), in which case nothing was written. */
  function AppendOutcome(s: Stored, r: School, writeOk: bool): (next: Option<Stored>)
    ensures next.Some? <==> !s.Corrupt? && writeOk
    ensures next.Some? ==> next.value.Present?
    ensures next.Some? ==> |next.value.records| == |ListOrEmpty(s).value| + 1
    ensures next.Some? ==> next.value.records[..|next.value.records| - 1] == ListOrEmpty(s).value
    ensures next.Some? ==> next.value.records[|next.value.records| - 1] == r
  {
    match ListOrEmpty(s)
    case None => None
    case Some(list) => if writeOk then Some(Present(list + [r])) else None
  }

  /** What the list page's load yields: the list it shows (`None`: it threw, and the
      page keeps showing what it showed before) and what it leaves under the key. */
  datatype LoadOutcome = LoadOutcome(shown: Option<seq<School>>, next: Stored)

  function LoadOutcomeOf(s: Stored, writeOk: bool): (o: LoadOutcome)
    ensures o.shown.None? <==> s.Corrupt?
    ensures s.Present? ==> o.shown == Some(s.records) && o.next == s
    ensures IsBlank(s) ==> o.shown == Some(DemoSchools)
    ensures o.next == s || (IsBlank(s) && writeOk && o.next == Present(DemoSchools))
    ensures IsBlank(s) && writeOk ==> o.next == Present(DemoSchools)
    ensures o.next != s <==> IsBlank(s) && writeOk
  {
    match s
    case Absent => LoadOutcome(Some(DemoSchools), if writeOk then Present(DemoSchools) else s)
    case EmptyText => LoadOutcome(Some(DemoSchools), if writeOk then Present(DemoSchools) else s)
    case Present(rs) => LoadOutcome(Some(rs), s)
    case Corrupt => LoadOutcome(None, s)
  }

  /** The record a submission adds keeps every submitted field, takes the timestamp as
      id and the preview (or the placeholder) as image, whatever file was uploaded. */
  lemma NewRecordFields(now: int, data: SchoolForm, imagePreview: string, u: Upload)
    ensures AsForm(NewRecord(now, data, imagePreview)) == data.(image := NoFile)
    ensures NewRecord(now, data, imagePreview).id == now
    ensures NewRecord(now, data, imagePreview).image
            == (if imagePreview != [] then imagePreview else PlaceholderImage)
    ensures NewRecord(now, data.(image := u), imagePreview) == NewRecord(now, data, imagePreview)
  {
  }

  /** A record built from validated data still satisfies the schema when read back. */
  lemma NewRecordPasses(now: int, data: SchoolForm, imagePreview: string, isEmail: string -> bool)
    requires Validate(data, isEmail) == []
    ensures Validate(AsForm(NewRecord(now, data, imagePreview)), isEmail) == []
  {
  }

  /** Every character of a demonstration contact number is a decimal digit. */
  lemma DemoContactDigits(k: nat)
    requires k < |DemoSchools|
    ensures |DemoSchools[k].contact| == 10
    ensures forall j | 0 <= j < 10 :: IsDigit(DemoSchools[k].contact[j])
  {
    var c := DemoSchools[k].contact;
    assert c == "987654321" + [['0', '1', '2'][k]];
    forall j | 0 <= j < 10 ensures IsDigit(c[j]) {
      if j < 9 {
        assert c[j] == "987654321"[j];
      }
    }
  }

  /** The demonstration records satisfy the form's field rules (the email syntax check
      being outside the model, it is assumed to accept their addresses). */
  lemma DemoSchoolsValid(isEmail: string -> bool)
    requires isEmail("info@greenwood.edu")
    requires isEmail("contact@sunrise.edu")
    requires isEmail("admin@bluevalley.edu")
    ensures forall i | 0 <= i < |DemoSchools| :: Validate(AsForm(DemoSchools[i]), isEmail) == []
  {
    var emails := ["info@greenwood.edu", "contact@sunrise.edu", "admin@bluevalley.edu"];
    forall i | 0 <= i < |DemoSchools| ensures Validate(AsForm(DemoSchools[i]), isEmail) == [] {
      assert DemoSchools[i].email_id == emails[i];
      DemoRecordPasses(i, isEmail);
    }
  }

  lemma DemoRecordPasses(k: nat, isEmail: string -> bool)
    requires k < |DemoSchools|
    requires isEmail(DemoSchools[k].email_id)
    ensures Validate(AsForm(DemoSchools[k]), isEmail) == []
  {
    var r := DemoSchools[k];
    DemoContactDigits(k);
    assert 2 <= |r.name| <= 100 && 10 <= |r.address| <= 200;
    assert 2 <= |r.city| <= 50 && 2 <= |r.state| <= 50;
    assert Passes(AsForm(r), isEmail);
  }

  /** The demonstration list: three records, by id and name, in order; ids pairwise distinct. */
  lemma DemoSchoolNames()
    ensures |DemoSchools| == 3
    ensures DemoSchools[0].name == "Greenwood High School"
    ensures DemoSchools[1].name == "Sunrise International School"
    ensures DemoSchools[2].name == "Blue Valley Academy"
    ensures DemoSchools[0].id == 1 && DemoSchools[1].id == 2 && DemoSchools[2].id == 3
    ensures forall i, j | 0 <= i < j < |DemoSchools| :: DemoSchools[i].id != DemoSchools[j].id
  {
  }

  /** Loading is idempotent: a second load shows the same list as the first, and once the
      first has stored what it shows, the second writes nothing. */
  lemma LoadIdempotent(s: Stored, writeOk1: bool, writeOk2: bool)
    ensures LoadOutcomeOf(LoadOutcomeOf(s, writeOk1).next, writeOk2).shown == LoadOutcomeOf(s, writeOk1).shown
    ensures !IsBlank(s) || writeOk1 ==>
              LoadOutcomeOf(LoadOutcomeOf(s, writeOk1).next, writeOk2).next == LoadOutcomeOf(s, writeOk1).next
  {
  }

  /** A stored empty list is shown as empty and is not reseeded. */
  lemma StoredEmptyListNotReseeded(writeOk: bool)
    ensures LoadOutcomeOf(Present([]), writeOk) == LoadOutcome(Some([]), Present([]))
  {
  }

  /** A load after a successful append shows the earlier list followed by the new record;
      appending to a blank key shows the new record alone, with no demonstration records. */
  lemma AppendThenLoad(s: Stored, r: School, writeOk: bool, loadWriteOk: bool)
    requires AppendOutcome(s, r, writeOk).Some?
    ensures LoadOutcomeOf(AppendOutcome(s, r, writeOk).value, loadWriteOk).shown == Some(ListOrEmpty(s).value + [r])
    ensures IsBlank(s) ==> LoadOutcomeOf(AppendOutcome(s, r, writeOk).value, loadWriteOk).shown == Some([r])
  {
  }

  /** A seeding load, then an append, then a load shows the three demonstration records
      followed by the new one. */
  lemma SeedAppendLoad(s: Stored, r: School)
    requires IsBlank(s)
    ensures AppendOutcome(LoadOutcomeOf(s, true).next, r, true).Some?
    ensures LoadOutcomeOf(AppendOutcome(LoadOutcomeOf(s, true).next, r, true).value, true).shown
            == Some(DemoSchools + [r])
  {
  }

  /** The key after a run of successful appends. */
  function AppendAll(s: Stored, rs: seq<School>): (t: Stored)
    requires !s.Corrupt?
    ensures !t.Corrupt?
    decreases |rs|
  {
    if rs == [] then s
    else AppendOutcome(AppendAll(s, rs[..|rs| - 1]), rs[|rs| - 1], true).value
  }

  /** After any non-empty run of successful appends, a load shows the list the first
      append read, followed by every appended record in order. */
  lemma {:induction false} AppendAllThenLoad(s: Stored, rs: seq<School>, writeOk: bool)
    requires !s.Corrupt?
    requires rs != []
    ensures AppendAll(s, rs) == Present(ListOrEmpty(s).value + rs)
    ensures LoadOutcomeOf(AppendAll(s, rs), writeOk).shown == Some(ListOrEmpty(s).value + rs)
    decreases |rs|
  {
    var front, last := rs[..|rs| - 1], rs[|rs| - 1];
    var list := ListOrEmpty(s).value;
    assert rs == front + [last];
    if front == [] {
      assert AppendAll(s, rs) == AppendOutcome(s, last, true).value;
    } else {
      AppendAllThenLoad(s, front, writeOk);
      assert AppendAll(s, rs) == Present(list + front + [last]);
      assert list + front + [last] == list + rs;
    }
  }

  /** The storage key, read and written by both pages. */
  class Store {
    var stored: Stored

    constructor (initial: Stored)
      ensures stored == initial
    {
      stored := initial;
    }

    /** The storage half of a submission: read the list (a blank key reads as empty),
        build the new record, push it, and write the list back. Parsing the corrupt text
        or writing the list can throw; then nothing is written. */
    method Append(data: SchoolForm, imagePreview: string, now: int, writeOk: bool, ghost isEmail: string -> bool)
      returns (ok: bool)
      requires Validate(data, isEmail) == []
      modifies this
      ensures ok <==> !old(stored).Corrupt? && writeOk
      ensures ok ==> stored == Present(ListOrEmpty(old(stored)).value + [NewRecord(now, data, imagePreview)])
      ensures !ok ==> stored == old(stored)
    {
      var schools: seq<School>;
      match stored {
        case Corrupt =>
          ok := false;
          return;
        case Absent =>
          schools := [];
        case EmptyText =>
          schools := [];
        case Present(rs) =>
          schools := rs;
      }
      var newSchool := NewRecord(now, data, imagePreview);
      schools := schools + [newSchool];
      if !writeOk {
        ok := false;
        return;
      }
      stored := Present(schools);
      ok := true;
    }

    /** The storage half of the list page's load: a blank key shows the demonstration
        records and writes them; stored text is parsed and shown; corrupt text throws,
        shows nothing new and writes nothing. */
    method Load(writeOk: bool) returns (shown: Option<seq<School>>)
      modifies this
      ensures shown == LoadOutcomeOf(old(stored), writeOk).shown
      ensures stored == LoadOutcomeOf(old(stored), writeOk).next
    {
      match stored
      case Present(rs) =>
        shown := Some(rs);
      case Corrupt =>
        shown := None;
      case Absent =>
        shown := Some(DemoSchools);
        if writeOk {
          stored := Present(DemoSchools);
        }
      case EmptyText =>
        shown := Some(DemoSchools);
        if writeOk {
          stored := Present(DemoSchools);
        }
    }
  }
}
