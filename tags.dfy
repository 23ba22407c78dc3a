/**
 * The comma-separated tag field of the create and edit modals
 * (frontend/src/components/v2/CreateFlagModalV2.jsx and EditFlagModalV2.jsx):
 * the text is split on ",", each piece trimmed and empty pieces dropped; the
 * edit modal pre-fills the field by joining the stored tags with ", ".
 */
module Tags {
  import opened Text
  import opened Filtering

  /** A tag as parsing produces it: non-empty, trimmed, without a comma. */
  predicate WellFormed(t: string) {
    t != [] && IsTrimmed(t) && ',' !in t
  }

  /** Every character of the trimmed text occurs in the text. */
  lemma TrimKeepsCharacters(s: string, c: char)
    ensures c in Trim(s) ==> c in s
  {
    if c in Trim(s) {
      var t := TrimStart(s);
      var r := TrimEnd(t);
      var i :| 0 <= i < |r| && r[i] == c;
      assert t[i] == c;
      assert s[|s| - |t| + i] == c;
    }
  }

  /** `parts.map(t => t.trim())`. */
  function TrimAll(parts: seq<string>): (r: seq<string>)
    ensures |r| == |parts|
    ensures forall i :: 0 <= i < |parts| ==> r[i] == Trim(parts[i])
  {
    if parts == [] then [] else [Trim(parts[0])] + TrimAll(parts[1..])
  }

  /** A string is truthy exactly when it is not empty. */
  predicate NonEmpty(t: string) {
    t != []
  }

  /**
   * `parts.filter(Boolean)`: the non-empty pieces, in their order, each as
   * often as it occurs (`DropEmptyOne` and `DropEmptyConcat`).
   */
  function DropEmpty(parts: seq<string>): (r: seq<string>)
    ensures |r| <= |parts|
    ensures forall t :: t in r <==> t in parts && t != []
  {
    var r := Filter(parts, NonEmpty);
    assert forall t :: t in r <==> multiset(r)[t] > 0;
    r
  }

  /** One piece is kept exactly when it is not empty. */
  lemma DropEmptyOne(t: string)
    ensures DropEmpty([t]) == if t != [] then [t] else []
  {
    FilterOne(t, NonEmpty);
  }

  /** Dropping the empty pieces of two lists in a row keeps the lists in that order. */
  lemma DropEmptyConcat(p: seq<string>, q: seq<string>)
    ensures DropEmpty(p + q) == DropEmpty(p) + DropEmpty(q)
  {
    FilterConcat(p, q, NonEmpty);
  }

  /** A piece that is trimmed and comma-free once trimmed, when the piece was comma-free. */
  lemma TrimmedPieces(pieces: seq<string>)
    requires forall i :: 0 <= i < |pieces| ==> ',' !in pieces[i]
    ensures forall t :: t in DropEmpty(TrimAll(pieces)) ==> WellFormed(t)
  {
    var trimmed := TrimAll(pieces);
    forall t | t in DropEmpty(trimmed) ensures WellFormed(t) {
      assert t in trimmed && t != [];
      var j :| 0 <= j < |trimmed| && trimmed[j] == t;
      assert t == Trim(pieces[j]) && IsTrimmed(t);
      TrimKeepsCharacters(pieces[j], ',');
    }
  }

  /** The tags a text in the tag field stands for. */
  function Parse(s: string): (tags: seq<string>)
    ensures forall i :: 0 <= i < |tags| ==> WellFormed(tags[i])
  {
    var pieces := Split(s, ',');
    TrimmedPieces(pieces);
    var tags := DropEmpty(TrimAll(pieces));
    assert forall i :: 0 <= i < |tags| ==> tags[i] in tags;
    tags
  }

  /** `tags.join(", ")`: the text the edit modal pre-fills. */
  function Render(tags: seq<string>): string {
    Join(tags, ", ")
  }

  /** The pieces that splitting a rendered list on "," gives: a space before every tag but the first. */
  function Spaced(tags: seq<string>): (r: seq<string>)
    ensures |r| == |tags|
    ensures forall i :: 0 <= i < |tags| ==> r[i] == " " + tags[i]
  {
    if tags == [] then [] else [" " + tags[0]] + Spaced(tags[1..])
  }

  lemma {:induction false} SplitRendered(tags: seq<string>)
    requires |tags| >= 1
    requires forall i :: 0 <= i < |tags| ==> ',' !in tags[i]
    ensures Split(Render(tags), ',') == [tags[0]] + Spaced(tags[1..])
    decreases |tags|
  {
    if |tags| == 1 {
      SplitNoSeparator(tags[0], ',');
    } else {
      var rest := tags[1..];
      assert Render(tags) == tags[0] + [','] + (" " + Render(rest));
      var rest' := [" " + rest[0]] + rest[1..];
      assert ',' !in " " + rest[0];
      assert Render(rest') == " " + Render(rest) by {
        if |rest| > 1 {
          assert rest'[1..] == rest[1..];
        }
      }
      SplitRendered(rest');
      assert rest'[1..] == rest[1..];
      SplitAtSeparator(tags[0], " " + Render(rest), ',');
      assert Spaced(rest) == [" " + rest[0]] + Spaced(rest[1..]);
    }
  }

  /** Trimming the split pieces of a rendered list gives the tags back. */
  lemma {:induction false} TrimSpaced(tags: seq<string>)
    requires forall i :: 0 <= i < |tags| ==> WellFormed(tags[i])
    ensures TrimAll(Spaced(tags)) == tags
  {
    forall i | 0 <= i < |tags| ensures TrimAll(Spaced(tags))[i] == tags[i] {
      TrimLeadingSpace(tags[i]);
    }
  }

  lemma DropEmptyNone(parts: seq<string>)
    requires forall i :: 0 <= i < |parts| ==> parts[i] != []
    ensures DropEmpty(parts) == parts
  {
    FilterAll(parts, NonEmpty);
  }

  lemma {:induction false} TrimAllConcat(p: seq<string>, q: seq<string>)
    ensures TrimAll(p + q) == TrimAll(p) + TrimAll(q)
  {
    if p == [] {
      assert p + q == q;
    } else {
      assert (p + q)[0] == p[0] && (p + q)[1..] == p[1..] + q;
      TrimAllConcat(p[1..], q);
    }
  }

  /**
   * The tags of two texts joined by a comma are the tags of the first
   * followed by those of the second: parsing keeps the order of the text.
   */
  lemma ParseConcat(x: string, y: string)
    ensures Parse(x + "," + y) == Parse(x) + Parse(y)
  {
    SplitConcat(x, y, ',');
    TrimAllConcat(Split(x, ','), Split(y, ','));
    DropEmptyConcat(TrimAll(Split(x, ',')), TrimAll(Split(y, ',')));
  }

  /** A comma-free text is one tag, its trimmed self, unless it is all white space. */
  lemma ParsePiece(x: string)
    requires ',' !in x
    ensures Parse(x) == if IsBlank(x) then [] else [Trim(x)]
  {
    SplitNoSeparator(x, ',');
    assert TrimAll([x]) == [Trim(x)];
    FilterOne(Trim(x), NonEmpty);
    TrimEmpty(x);
  }

  /**
   * Round trip of the edit modal: pre-filling the field with the joined tags
   * and saving it unchanged gives the same tags, in the same order, whenever
   * every tag is non-empty, trimmed and comma-free.
   */
  lemma {:induction false} ParseRender(tags: seq<string>)
    requires forall i :: 0 <= i < |tags| ==> WellFormed(tags[i])
    ensures Parse(Render(tags)) == tags
  {
    if tags == [] {
      assert Split("", ',') == [""];
      assert TrimAll([""]) == [""];
    } else {
      SplitRendered(tags);
      var pieces := [tags[0]] + Spaced(tags[1..]);
      TrimSpaced(tags[1..]);
      TrimTrimmed(tags[0]);
      assert TrimAll(pieces) == tags by {
        assert TrimAll(pieces) == [Trim(tags[0])] + TrimAll(Spaced(tags[1..]));
      }
      DropEmptyNone(tags);
    }
  }

  /** A one-letter text is that one tag. */
  lemma ParseLetter(c: char)
    requires 'a' <= c <= 'z'
    ensures Parse([c]) == [[c]]
  {
    var t := [c];
    assert t[0] == c && !IsSpace(c);
    ParsePiece(t);
    TrimTrimmed(t);
  }

  /** The create modal's example: "a,b", like any two letters around a comma, gives two tags. */
  lemma ParseExample(a: char, b: char)
    requires 'a' <= a <= 'z' && 'a' <= b <= 'z'
    ensures Parse([a] + "," + [b]) == [[a], [b]]
  {
    ParseConcat([a], [b]);
    ParseLetter(a);
    ParseLetter(b);
  }

  /** The edit modal's example: the tags t1 and t2 are pre-filled as "t1, t2". */
  lemma RenderExample()
    ensures Render(["t1", "t2"]) == "t1, t2"
  {
  }
}
