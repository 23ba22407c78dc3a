/**
 * The card list of the second layout
 * (frontend/src/components/v2/FeatureListV2.jsx): the rows of the current
 * environment, narrowed by a case-insensitive search and sorted by creation,
 * modification or name.
 */
module FeatureList {
  import opened Wrappers
  import opened Text
  import opened Filtering
  import opened Sorting
  import opened Rows

  /** `envRows`: the rows of the environment the layout provides. */
  function EnvRows(flags: seq<Row>, envName: string): (r: seq<Row>)
    ensures forall x :: x in r ==> x.environment == envName
    ensures forall x :: multiset(r)[x] == if x.environment == envName then multiset(flags)[x] else 0
  {
    Filter(flags, (f: Row) => f.environment == envName)
  }

  /** `searched`: the rows whose lowercased name contains the lowercased term, untrimmed. */
  function Searched(rows: seq<Row>, term: string): (r: seq<Row>)
    ensures forall x :: x in r ==> Contains(Lower(x.name), Lower(term))
    ensures forall x :: multiset(r)[x] == if Contains(Lower(x.name), Lower(term)) then multiset(rows)[x] else 0
  {
    Filter(rows, (f: Row) => Contains(Lower(f.name), Lower(term)))
  }

  /**
   * The search is case-insensitive: two terms that lowercase alike select
   * the same rows, in the same order.
   */
  lemma SearchIgnoresCase(rows: seq<Row>, term: string, other: string)
    requires Lower(term) == Lower(other)
    ensures Searched(rows, term) == Searched(rows, other)
  {
  }

  /** In particular, lowercasing the term first changes nothing. */
  lemma SearchLowered(rows: seq<Row>, term: string)
    ensures Searched(rows, Lower(term)) == Searched(rows, term)
  {
    LowerIdempotent(term);
    SearchIgnoresCase(rows, Lower(term), term);
  }

  /** An empty search term keeps every row, in order. */
  lemma EmptyTermKeepsAll(rows: seq<Row>)
    ensures Searched(rows, "") == rows
  {
    forall i | 0 <= i < |rows| ensures Contains(Lower(rows[i].name), Lower("")) {
      ContainsEmpty(Lower(rows[i].name));
    }
    FilterAll(rows, (f: Row) => Contains(Lower(f.name), Lower("")));
  }

  /** The date a row sorts by: `Date.parse(...) || 0`, so an unreadable date counts as 0. */
  function DateKey(r: Row, field: string, parse: DateParser): int {
    var text := if field == "modified" then OrElse(r.modifiedAt, r.createdAt) else r.createdAt;
    parse(text).GetOr(0)
  }

  /** The "modified" column reads the modification date when there is one, else the creation date. */
  lemma ModifiedKey(r: Row, parse: DateParser)
    ensures DateKey(r, "modified", parse) ==
      if r.modifiedAt.Some? && r.modifiedAt.value != "" then parse(r.modifiedAt.value).GetOr(0)
      else DateKey(r, "created", parse)
    ensures parse(r.createdAt).None? ==> DateKey(r, "created", parse) == 0
  {
  }

  /** `cmp`: names character by character, dates by their difference. */
  function Cmp(a: Row, b: Row, field: string, parse: DateParser): int {
    if field == "name" then LexCompare(a.name, b.name)
    else DateKey(a, field, parse) - DateKey(b, field, parse)
  }

  /** Swapping the rows negates the comparison. */
  lemma CmpAntisymmetric(a: Row, b: Row, field: string, parse: DateParser)
    ensures Cmp(b, a, field, parse) == -Cmp(a, b, field, parse)
  {
    if field == "name" {
      LexTrichotomy(a.name, b.name);
    }
  }

  /** The comparator passed to `sort`: `cmp`, negated unless the direction is "asc". */
  function Directed(a: Row, b: Row, field: string, dir: string, parse: DateParser): int {
    var cmp := Cmp(a, b, field, parse);
    if dir == "asc" then cmp else -cmp
  }

  /** `a` may stay before `b`. */
  function Order(field: string, dir: string, parse: DateParser): (Row, Row) -> bool {
    (a: Row, b: Row) => Directed(a, b, field, dir, parse) <= 0
  }

  /** The descending comparator is the ascending one with the rows swapped. */
  lemma DescReverses(a: Row, b: Row, field: string, parse: DateParser)
    ensures Directed(a, b, field, "desc", parse) == Directed(b, a, field, "asc", parse)
    ensures Order(field, "desc", parse)(a, b) <==> Order(field, "asc", parse)(b, a)
  {
    CmpAntisymmetric(a, b, field, parse);
  }

  /** The comparator is consistent on every input, so the sort is a total preorder sort. */
  lemma OrderConsistent(rows: seq<Row>, field: string, dir: string, parse: DateParser)
    ensures TotalPreorderOn(rows, Order(field, dir, parse))
  {
    var le := Order(field, dir, parse);
    forall a, b | a in rows && b in rows ensures le(a, b) || le(b, a) {
      CmpAntisymmetric(a, b, field, parse);
    }
    forall a, b, c | a in rows && b in rows && c in rows && le(a, b) && le(b, c) ensures le(a, c) {
      if field == "name" {
        CmpAntisymmetric(a, b, field, parse);
        CmpAntisymmetric(b, c, field, parse);
        CmpAntisymmetric(a, c, field, parse);
        LexTrichotomy(a.name, b.name);
        LexTrichotomy(b.name, c.name);
        LexTrichotomy(a.name, c.name);
        if LexLess(a.name, b.name) && LexLess(b.name, c.name) {
          LexTransitive(a.name, b.name, c.name);
        }
        if LexLess(c.name, b.name) && LexLess(b.name, a.name) {
          LexTransitive(c.name, b.name, a.name);
        }
      }
    }
  }

  /** `sorted`: a sorted copy of the searched rows. */
  function Sorted(rows: seq<Row>, field: string, dir: string, parse: DateParser): (r: seq<Row>)
    ensures multiset(r) == multiset(rows)
    ensures SortedBy(r, Order(field, dir, parse))
  {
    OrderConsistent(rows, field, dir, parse);
    Sort(rows, Order(field, dir, parse))
  }

  /** By a date column, the keys rise in "asc" and fall otherwise. */
  lemma SortedByDate(rows: seq<Row>, field: string, dir: string, parse: DateParser)
    requires field != "name"
    ensures var r := Sorted(rows, field, dir, parse);
      forall i, j :: 0 <= i < j < |r| ==>
        (dir == "asc" ==> DateKey(r[i], field, parse) <= DateKey(r[j], field, parse))
        && (dir != "asc" ==> DateKey(r[i], field, parse) >= DateKey(r[j], field, parse))
  {
    var r := Sorted(rows, field, dir, parse);
    forall i, j | 0 <= i < j < |r|
      ensures (dir == "asc" ==> DateKey(r[i], field, parse) <= DateKey(r[j], field, parse))
              && (dir != "asc" ==> DateKey(r[i], field, parse) >= DateKey(r[j], field, parse))
    {
      assert Order(field, dir, parse)(r[i], r[j]);
    }
  }

  /** By name, the names rise in "asc" and fall otherwise. */
  lemma SortedByName(rows: seq<Row>, dir: string, parse: DateParser)
    ensures var r := Sorted(rows, "name", dir, parse);
      forall i, j :: 0 <= i < j < |r| ==>
        (dir == "asc" ==> !LexLess(r[j].name, r[i].name))
        && (dir != "asc" ==> !LexLess(r[i].name, r[j].name))
  {
    var r := Sorted(rows, "name", dir, parse);
    forall i, j | 0 <= i < j < |r|
      ensures (dir == "asc" ==> !LexLess(r[j].name, r[i].name))
              && (dir != "asc" ==> !LexLess(r[i].name, r[j].name))
    {
      assert Order("name", dir, parse)(r[i], r[j]);
    }
  }

  /** `onToggle(row.id, row.enabled)`: what a card's switch reports. */
  datatype Toggle = Toggle(id: int, currentlyEnabled: bool)

  function CardToggle(row: Row): (t: Toggle)
    ensures t.id == row.id && t.currentlyEnabled == row.enabled
  {
    Toggle(row.id, row.enabled)
  }

  /** The list's own state: the search term and the sort column and direction. */
  class ListControls {
    var searchTerm: string
    var sortField: string
    var sortDir: string

    /** An empty search, sorted by creation, rising. */
    constructor()
      ensures searchTerm == "" && sortField == "created" && sortDir == "asc"
    {
      searchTerm := "";
      sortField := "created";
      sortDir := "asc";
    }

    method SetSearch(term: string)
      modifies this
      ensures searchTerm == term && sortField == old(sortField) && sortDir == old(sortDir)
    {
      searchTerm := term;
    }

    /** The select offers "created", "modified" and "name". */
    method SetSortField(field: string)
      requires field in ["created", "modified", "name"]
      modifies this
      ensures sortField == field && searchTerm == old(searchTerm) && sortDir == old(sortDir)
    {
      sortField := field;
    }

    /** The direction button: "asc" becomes "desc", anything else "asc". */
    method ToggleDirection()
      modifies this
      ensures sortDir == if old(sortDir) == "asc" then "desc" else "asc"
      ensures searchTerm == old(searchTerm) && sortField == old(sortField)
    {
      sortDir := if sortDir == "asc" then "desc" else "asc";
    }

    /**
     * The cards on screen: every row of the environment that matches the
     * search, as often as it was given, in the order of the chosen column.
     */
    function Cards(flags: seq<Row>, envName: string, parse: DateParser): (r: seq<Row>)
      reads this
      ensures forall x :: x in r ==> x in flags && x.environment == envName && Contains(Lower(x.name), Lower(searchTerm))
      ensures forall x :: multiset(r)[x] ==
                if x.environment == envName && Contains(Lower(x.name), Lower(searchTerm)) then multiset(flags)[x] else 0
      ensures SortedBy(r, Order(sortField, sortDir, parse))
    {
      CardsOf(flags, envName, searchTerm, sortField, sortDir, parse)
    }
  }

  /**
   * The pipeline, environment, then search, then sort: exactly the matching
   * rows of the environment, each as often as given, sorted by the column.
   */
  function CardsOf(flags: seq<Row>, envName: string, term: string, field: string, dir: string, parse: DateParser): (r: seq<Row>)
    ensures forall x :: x in r ==> x in flags && x.environment == envName && Contains(Lower(x.name), Lower(term))
    ensures forall x :: multiset(r)[x] ==
              if x.environment == envName && Contains(Lower(x.name), Lower(term)) then multiset(flags)[x] else 0
    ensures SortedBy(r, Order(field, dir, parse))
  {
    var e := EnvRows(flags, envName);
    var s := Searched(e, term);
    var r := Sorted(s, field, dir, parse);
    assert forall x :: x in r ==> x in multiset(s) && x in multiset(e);
    r
  }

  /** Two presses of the direction button restore the direction, once it is "asc" or "desc". */
  method ToggleTwice(controls: ListControls)
    requires controls.sortDir in ["asc", "desc"]
    modifies controls
    ensures controls.sortDir == old(controls.sortDir)
  {
    controls.ToggleDirection();
    controls.ToggleDirection();
  }
}
