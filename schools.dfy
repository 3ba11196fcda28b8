/** The schools list page: the list it displays, the `loading` flag, the load that
    seeds or reads the store, and the two facts the page renders from the list's
    length (the count badge's label and whether the empty state is shown). */
module Schools {
  import opened Wrappers
  import opened Storage

  /** The word after the count on the badge: singular for exactly one school. */
  function CountLabel(count: nat): (word: string)
    ensures word == "School" <==> count == 1
    ensures word == "Schools" <==> count != 1
  {
    if count == 1 then "School" else "Schools"
  }

  /** Whether the page shows its "no schools" state instead of the cards. */
  function ShowsEmptyState(schools: seq<School>): (empty: bool)
    ensures empty <==> schools == []
  {
    |schools| == 0
  }

  class SchoolsPage {
    var schools: seq<School>
    var loading: bool
    const store: Store

    constructor (store: Store)
      ensures this.store == store
      ensures schools == [] && loading
    {
      this.store := store;
      schools := [];
      loading := true;
    }

    /** The page's load: whatever the store yields is displayed; when it throws, the
        displayed list is left as it was. Either way loading ends. */
    method LoadSchools(writeOk: bool)
      modifies this, store
      ensures !loading
      ensures store.stored == LoadOutcomeOf(old(store.stored), writeOk).next
      ensures LoadOutcomeOf(old(store.stored), writeOk).shown.Some? ==>
                schools == LoadOutcomeOf(old(store.stored), writeOk).shown.value
      ensures LoadOutcomeOf(old(store.stored), writeOk).shown.None? ==> schools == old(schools)
    {
      var shown := store.Load(writeOk);
      if shown.Some? {
        schools := shown.value;
      }
      loading := false;
    }
  }

  /** On a first visit (blank key) the page shows three schools, with the plural label and
      no empty state; a stored empty list shows the empty state with the plural label. */
  lemma FirstVisitDisplay(s: Stored, writeOk: bool)
    requires IsBlank(s)
    ensures LoadOutcomeOf(s, writeOk).shown.Some?
    ensures |LoadOutcomeOf(s, writeOk).shown.value| == 3
    ensures CountLabel(|LoadOutcomeOf(s, writeOk).shown.value|) == "Schools"
    ensures !ShowsEmptyState(LoadOutcomeOf(s, writeOk).shown.value)
    ensures ShowsEmptyState(LoadOutcomeOf(Present([]), writeOk).shown.value)
    ensures CountLabel(|LoadOutcomeOf(Present([]), writeOk).shown.value|) == "Schools"
  {
  }

  /** A freshly opened page whose load meets corrupt stored text keeps its initial empty
      list, so it shows the empty state; loading still ends and the store is untouched. */
  method OpenWithCorruptStore(store: Store, writeOk: bool) returns (displayed: seq<School>, stillLoading: bool)
    requires store.stored.Corrupt?
    modifies store
    ensures displayed == [] && ShowsEmptyState(displayed) && !stillLoading
    ensures store.stored == old(store.stored)
  {
    var page := new SchoolsPage(store);
    page.LoadSchools(writeOk);
    displayed, stillLoading := page.schools, page.loading;
  }
}
