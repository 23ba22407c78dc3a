/**
 * The flag list of the main page (frontend/src/App.jsx): the rows of the
 * selected environment tab, narrowed by the search box and sorted by the
 * chosen column, plus the sort and toggle handlers.
 */
module AppList {
  import opened Wrappers
  import opened Text
  import opened Json
  import opened Filtering
  import opened Sorting
  import opened Rows
  import UpdateFlag

  datatype Direction = Asc | Desc

  /** `envMap[selectedTab]`: tab 0 is Production, 1 Staging, 2 Development; any other tab has none. */
  function CurrentEnv(tab: int): (env: Option<string>)
    ensures env.Some? <==> 0 <= tab < 3
    ensures tab == 0 ==> env == Some("Production")
    ensures tab == 1 ==> env == Some("Staging")
    ensures tab == 2 ==> env == Some("Development")
  {
    if tab == 0 then Some("Production")
    else if tab == 1 then Some("Staging")
    else if tab == 2 then Some("Development")
    else None
  }

  /** `envFlags`: the loaded rows whose environment is the tab's; none before the first load. */
  function EnvFlags(flags: Option<seq<Row>>, tab: int): (r: seq<Row>)
    ensures flags.None? ==> r == []
    ensures forall x ::
              multiset(r)[x] == if flags.Some? && CurrentEnv(tab) == Some(x.environment) then multiset(flags.value)[x] else 0
  {
    if flags.None? then []
    else Filter(flags.value, (f: Row) => CurrentEnv(tab) == Some(f.environment))
  }

  /** A tab outside the three shows nothing, whatever was loaded (every row here names its environment). */
  lemma UnknownTabEmpty(flags: Option<seq<Row>>, tab: int)
    requires !(0 <= tab < 3)
    ensures EnvFlags(flags, tab) == []
  {
  }

  /** `searchQuery.trim().toLowerCase()`. */
  function NormalizedQuery(query: string): string {
    Lower(Trim(query))
  }

  /** The row passes the search box: the query is blank, or the row's lowercased name contains it. */
  predicate MatchesQuery(x: Row, query: string) {
    NormalizedQuery(query) == [] || Contains(Lower(x.name), NormalizedQuery(query))
  }

  /** `searchedFlags`: every row when the query is blank, else the rows whose lowercased name contains it. */
  function Searched(rows: seq<Row>, query: string): (r: seq<Row>)
    ensures NormalizedQuery(query) == [] ==> r == rows
    ensures forall x ::
              multiset(r)[x] == if MatchesQuery(x, query) then multiset(rows)[x] else 0
  {
    var q := NormalizedQuery(query);
    if q == [] then rows else Filter(rows, (f: Row) => Contains(Lower(f.name), q))
  }

  /**
   * The search is case-insensitive: two queries that lowercase alike select
   * the same rows, in the same order.
   */
  lemma SearchIgnoresCase(rows: seq<Row>, query: string, other: string)
    requires Lower(query) == Lower(other)
    ensures Searched(rows, query) == Searched(rows, other)
  {
    TrimLower(query);
    TrimLower(other);
    assert NormalizedQuery(query) == NormalizedQuery(other);
  }

  /** In particular, lowercasing the query first changes nothing. */
  lemma SearchLowered(rows: seq<Row>, query: string)
    ensures Searched(rows, Lower(query)) == Searched(rows, query)
  {
    LowerIdempotent(query);
    SearchIgnoresCase(rows, Lower(query), query);
  }

  /** A query of nothing but white space filters nothing out. */
  lemma BlankQueryKeepsAll(rows: seq<Row>, query: string)
    requires IsBlank(query)
    ensures Searched(rows, query) == rows
  {
    TrimEmpty(query);
  }

  /** `aVal < bVal`: the lowercased names character by character, or the creation times (NaN is never less). */
  predicate KeyLess(a: Row, b: Row, field: string, time: DateParser) {
    if field == "name" then LexLess(Lower(a.name), Lower(b.name))
    else
      var x, y := time(a.createdAt), time(b.createdAt);
      x.Some? && y.Some? && x.value < y.value
  }

  /** The comparator of `sortedFlags`. */
  function Compare(a: Row, b: Row, field: string, dir: Direction, time: DateParser): int {
    if KeyLess(a, b, field, time) then (if dir == Asc then -1 else 1)
    else if KeyLess(b, a, field, time) then (if dir == Asc then 1 else -1)
    else 0
  }

  /** `a` may stay before `b`: the comparator does not put `b` first. */
  function Order(field: string, dir: Direction, time: DateParser): (Row, Row) -> bool {
    (a: Row, b: Row) => Compare(a, b, field, dir, time) <= 0
  }

  /** Every row has a creation date `Date` can read. */
  predicate AllDated(rows: seq<Row>, time: DateParser) {
    forall x :: x in rows ==> time(x.createdAt).Some?
  }

  /**
   * `sortedFlags`: a sorted copy of the searched rows, in the comparator's
   * order by name, and by date whenever every date parses.
   */
  function SortedFlags(rows: seq<Row>, field: string, dir: Direction, time: DateParser): (r: seq<Row>)
    ensures multiset(r) == multiset(rows)
    ensures field == "name" || AllDated(rows, time) ==> SortedBy(r, Order(field, dir, time))
  {
    if field == "name" || AllDated(rows, time) then
      OrderConsistent(rows, field, dir, time);
      Sort(rows, Order(field, dir, time))
    else
      Sort(rows, Order(field, dir, time))
  }

  /** The keys never compare less both ways. */
  lemma KeyLessAsymmetric(a: Row, b: Row, field: string, time: DateParser)
    ensures !(KeyLess(a, b, field, time) && KeyLess(b, a, field, time))
  {
    if field == "name" {
      LexTrichotomy(Lower(a.name), Lower(b.name));
    }
  }

  /** Whether `a` may precede `b`, in terms of the keys. */
  lemma OrderByKey(a: Row, b: Row, field: string, dir: Direction, time: DateParser)
    ensures Order(field, dir, time)(a, b) <==>
      if dir == Asc then !KeyLess(b, a, field, time) else !KeyLess(a, b, field, time)
  {
    KeyLessAsymmetric(a, b, field, time);
  }

  /** By name the comparator is a total preorder; by date it is one on rows whose dates all parse. */
  lemma OrderConsistent(rows: seq<Row>, field: string, dir: Direction, time: DateParser)
    requires field == "name" || AllDated(rows, time)
    ensures TotalPreorderOn(rows, Order(field, dir, time))
  {
    var le := Order(field, dir, time);
    forall a, b | a in rows && b in rows ensures le(a, b) || le(b, a) {
      KeyLessAsymmetric(a, b, field, time);
      OrderByKey(a, b, field, dir, time);
      OrderByKey(b, a, field, dir, time);
    }
    forall a, b, c | a in rows && b in rows && c in rows && le(a, b) && le(b, c) ensures le(a, c) {
      OrderByKey(a, b, field, dir, time);
      OrderByKey(b, c, field, dir, time);
      OrderByKey(a, c, field, dir, time);
      if field == "name" {
        var x, y, z := Lower(a.name), Lower(b.name), Lower(c.name);
        LexTrichotomy(x, y);
        LexTrichotomy(y, z);
        if dir == Asc {
          if LexLess(z, x) {
            LexTrichotomy(x, z);
            if LexLess(z, y) { } else if LexLess(x, y) { LexTransitive(z, x, y); } else { }
          }
        } else {
          if LexLess(x, z) {
            if LexLess(x, y) { } else if LexLess(y, x) { LexTransitive(y, x, z); } else { }
          }
        }
      }
    }
  }

  /** Sorting by name orders the lowercased names, rising in asc and falling in desc. */
  lemma SortedByName(rows: seq<Row>, dir: Direction, time: DateParser)
    ensures var r := SortedFlags(rows, "name", dir, time);
      forall i, j :: 0 <= i < j < |r| ==>
        if dir == Asc then !LexLess(Lower(r[j].name), Lower(r[i].name))
        else !LexLess(Lower(r[i].name), Lower(r[j].name))
  {
    OrderConsistent(rows, "name", dir, time);
    var r := SortedFlags(rows, "name", dir, time);
    forall i, j | 0 <= i < j < |r|
      ensures if dir == Asc then !LexLess(Lower(r[j].name), Lower(r[i].name))
              else !LexLess(Lower(r[i].name), Lower(r[j].name))
    {
      OrderByKey(r[i], r[j], "name", dir, time);
    }
  }

  /** Both times are known and in the direction's order. */
  predicate InOrder(x: Option<int>, y: Option<int>, dir: Direction) {
    x.Some? && y.Some? && (if dir == Asc then x.value <= y.value else x.value >= y.value)
  }

  /**
   * Sorting by creation orders the creation times whenever every date
   * parses; a NaN time compares equal to everything, so it promises no order.
   */
  lemma SortedByCreated(rows: seq<Row>, field: string, dir: Direction, time: DateParser)
    requires field != "name" && AllDated(rows, time)
    ensures var r := SortedFlags(rows, field, dir, time);
      forall i, j :: 0 <= i < j < |r| ==> InOrder(time(r[i].createdAt), time(r[j].createdAt), dir)
  {
    OrderConsistent(rows, field, dir, time);
    var r := SortedFlags(rows, field, dir, time);
    forall i, j | 0 <= i < j < |r|
      ensures InOrder(time(r[i].createdAt), time(r[j].createdAt), dir)
    {
      OrderByKey(r[i], r[j], field, dir, time);
      assert r[i] in multiset(rows) && r[j] in multiset(rows);
    }
  }

  /** The direction the column header switches to. */
  function Flip(d: Direction): (e: Direction)
    ensures e != d
  {
    if d == Asc then Desc else Asc
  }

  /** `handleToggle(id, currentlyEnabled)`: the body of the PATCH to `/flags/{id}`. */
  function ToggleBody(currentlyEnabled: bool): (body: map<string, Json>)
    ensures body.Keys == {"enabled"}
    ensures body["enabled"] == JBool(!currentlyEnabled)
  {
    map["enabled" := JBool(!currentlyEnabled)]
  }

  /** The toggle's body is one `updateFlag` accepts, and it asks for the opposite state. */
  lemma ToggleAccepted(currentlyEnabled: bool)
    ensures UpdateFlag.ValidRequest(ToggleBody(currentlyEnabled))
    ensures ToggleBody(currentlyEnabled)["enabled"].b != currentlyEnabled
  {
  }

  /**
   * `sortedFlags` for the given state, the table's rows once the flags have
   * loaded without error: exactly the loaded rows of the tab's environment
   * that pass the search, each as often as loaded, sorted by the column
   * (by date, when every loaded date parses).
   */
  function ShownRows(flags: Option<seq<Row>>, tab: int, query: string, field: string, dir: Direction, time: DateParser): (r: seq<Row>)
    ensures forall x :: multiset(r)[x] ==
              if flags.Some? && CurrentEnv(tab) == Some(x.environment) && MatchesQuery(x, query)
              then multiset(flags.value)[x] else 0
    ensures forall x :: x in r ==> flags.Some? && x in flags.value && CurrentEnv(tab) == Some(x.environment)
    ensures field == "name" || (flags.Some? && AllDated(flags.value, time)) ==> SortedBy(r, Order(field, dir, time))
  {
    var e := EnvFlags(flags, tab);
    var s := Searched(e, query);
    assert forall x :: x in s ==> flags.Some? && x in flags.value && CurrentEnv(tab) == Some(x.environment) by {
      forall x | x in s ensures flags.Some? && x in flags.value && CurrentEnv(tab) == Some(x.environment) {
        assert multiset(s)[x] > 0;
        assert multiset(e)[x] > 0;
      }
    }
    var r := SortedFlags(s, field, dir, time);
    assert forall x :: x in r ==> x in multiset(s);
    r
  }

  /** What the page renders: the load error, the loading message, or the table of rows. */
  datatype Screen = LoadError | Loading | Table(rows: seq<Row>)

  /** The page's list state. */
  class ListState {
    var flags: Option<seq<Row>>
    var loadFailed: bool
    var selectedTab: int
    var searchQuery: string
    var sortField: string
    var sortDirection: Direction

    /** Nothing loaded; the Production tab, sorted by name, rising. */
    constructor()
      ensures flags == None && !loadFailed
      ensures selectedTab == 0 && searchQuery == "" && sortField == "name" && sortDirection == Asc
    {
      flags := None;
      loadFailed := false;
      selectedTab := 0;
      searchQuery := "";
      sortField := "name";
      sortDirection := Asc;
    }

    /** `loadFlags`: a successful fetch replaces the rows; a failed one keeps them and records the error. */
    method Load(result: Option<seq<Row>>)
      modifies this
      ensures result.Some? ==> flags == result && !loadFailed
      ensures result.None? ==> flags == old(flags) && loadFailed
      ensures selectedTab == old(selectedTab) && searchQuery == old(searchQuery)
      ensures sortField == old(sortField) && sortDirection == old(sortDirection)
    {
      if result.Some? {
        flags := result;
        loadFailed := false;
      } else {
        loadFailed := true;
      }
    }

    method SelectTab(tab: int)
      modifies this
      ensures selectedTab == tab
      ensures flags == old(flags) && loadFailed == old(loadFailed) && searchQuery == old(searchQuery)
      ensures sortField == old(sortField) && sortDirection == old(sortDirection)
    {
      selectedTab := tab;
    }

    method SetQuery(query: string)
      modifies this
      ensures searchQuery == query
      ensures flags == old(flags) && loadFailed == old(loadFailed) && selectedTab == old(selectedTab)
      ensures sortField == old(sortField) && sortDirection == old(sortDirection)
    {
      searchQuery := query;
    }

    /** `handleSort`: the current column flips its direction; another column becomes current, rising. */
    method HandleSort(field: string)
      modifies this
      ensures sortField == field
      ensures sortDirection == if old(sortField) == field then Flip(old(sortDirection)) else Asc
      ensures flags == old(flags) && loadFailed == old(loadFailed)
      ensures selectedTab == old(selectedTab) && searchQuery == old(searchQuery)
    {
      if sortField == field {
        sortDirection := Flip(sortDirection);
      } else {
        sortField := field;
        sortDirection := Asc;
      }
    }

    /** `sortedFlags`: the rows the table lists when it is rendered. */
    function Shown(time: DateParser): (r: seq<Row>)
      reads this
      ensures forall x :: multiset(r)[x] ==
                if flags.Some? && CurrentEnv(selectedTab) == Some(x.environment) && MatchesQuery(x, searchQuery)
                then multiset(flags.value)[x] else 0
      ensures forall x :: x in r ==> flags.Some? && x in flags.value && CurrentEnv(selectedTab) == Some(x.environment)
      ensures sortField == "name" || (flags.Some? && AllDated(flags.value, time)) ==>
                SortedBy(r, Order(sortField, sortDirection, time))
    {
      ShownRows(flags, selectedTab, searchQuery, sortField, sortDirection, time)
    }

    /**
     * The early returns, then the table: a recorded load error hides every
     * row, even rows an earlier load left; before the first load the page
     * says it is loading.
     */
    function View(time: DateParser): (v: Screen)
      reads this
      ensures loadFailed <==> v == LoadError
      ensures v == Loading <==> !loadFailed && flags.None?
      ensures v.Table? ==> flags.Some? && v.rows == Shown(time)
    {
      if loadFailed then LoadError
      else if flags.None? then Loading
      else Table(Shown(time))
    }
  }

  /** A failed reload replaces the table by the error message, although the rows are kept. */
  method FailedReload(rows: seq<Row>, time: DateParser) returns (before: Screen, after: Screen, kept: Option<seq<Row>>)
    ensures before.Table? && after == LoadError && kept == Some(rows)
  {
    var list := new ListState();
    list.Load(Some(rows));
    before := list.View(time);
    list.Load(None);
    after := list.View(time);
    kept := list.flags;
  }

  /** Sorting twice on the same column shows the rows in the opposite order of keys. */
  method SortTwice(list: ListState, field: string)
    modifies list
    ensures list.sortField == field
    ensures list.sortDirection == if old(list.sortField) == field then old(list.sortDirection) else Desc
  {
    list.HandleSort(field);
    list.HandleSort(field);
  }
}
