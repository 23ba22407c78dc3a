/**
 * `getFlags` (backend/handlers/getFlags.js): authorise the caller, scan the
 * flags table and answer with the records sorted by id. It changes nothing.
 */
module GetFlags {
  import opened Wrappers
  import opened Auth
  import opened Store
  import opened Sorting

  /** An answer: the status code and, with 200, the records in the body. */
  datatype Listing = Listing(status: int, flags: seq<Flag>)

  /** The comparator `(a, b) => a.id - b.id` as a "may precede" relation. */
  predicate ById(a: Flag, b: Flag) {
    a.id <= b.id
  }

  lemma ByIdTotal(s: seq<Flag>)
    ensures TotalPreorderOn(s, ById)
  {
  }

  /**
   * The handler, with `scan` the records the scan returns, in the store's
   * order, or None when the scan throws.
   */
  function Handle(h: Headers, verify: Verifier, scan: Option<seq<Flag>>): (r: Listing)
    ensures Authorize(h, verify).Err? ==> r.status == FailureStatus(Authorize(h, verify).error)
    ensures r.status == 401 ==> Authorize(h, verify) == Err(NotAuthenticated)
    ensures r.status == 200 <==> Authorize(h, verify).Ok? && scan.Some?
    ensures r.status != 200 ==> r.flags == [] && (r.status == 401 || r.status == 500)
    ensures r.status == 200 ==> multiset(r.flags) == multiset(scan.value) && SortedBy(r.flags, ById)
  {
    match Authorize(h, verify)
    case Err(e) => Listing(FailureStatus(e), [])
    case Ok(_) =>
      if scan.None? then Listing(500, [])
      else
        ByIdTotal(scan.value);
        Listing(200, Sort(scan.value, ById))
  }

  /** `items` holds each record of `flags` once, and nothing else. */
  ghost predicate Enumerates(items: seq<Flag>, flags: map<int, Flag>) {
    forall f :: multiset(items)[f] == (if f.id in flags && flags[f.id] == f then 1 else 0)
  }

  lemma TwiceInMultiset<T>(s: seq<T>, i: int, j: int)
    requires 0 <= i < j < |s| && s[i] == s[j]
    ensures multiset(s)[s[i]] >= 2
  {
    assert s == s[..j] + s[j..];
    assert s[i] in s[..j];
    assert s[j] in s[j..];
  }

  /**
   * When the scan returns each record of the table once, the body lists
   * each record once, with ids strictly increasing.
   */
  lemma ListsTable(h: Headers, verify: Verifier, items: seq<Flag>, flags: map<int, Flag>)
    requires Authorize(h, verify).Ok? && Enumerates(items, flags)
    ensures Handle(h, verify, Some(items)).status == 200
    ensures Enumerates(Handle(h, verify, Some(items)).flags, flags)
    ensures var body := Handle(h, verify, Some(items)).flags;
      forall i, j :: 0 <= i < j < |body| ==> body[i].id < body[j].id
  {
    var body := Handle(h, verify, Some(items)).flags;
    assert multiset(body) == multiset(items);
    forall i, j | 0 <= i < j < |body| ensures body[i].id < body[j].id {
      assert ById(body[i], body[j]);
      if body[i].id == body[j].id {
        assert multiset(body)[body[i]] == 1;
        assert multiset(body)[body[j]] == 1;
        TwiceInMultiset(body, i, j);
      }
    }
  }
}
