/**
 * The edit dialog of the second layout
 * (frontend/src/components/v2/EditFlagModalV2.jsx): it pre-fills its fields
 * from the chosen flag, with the tags joined by ", ", and saves the trimmed
 * texts and the re-parsed tags.
 */
module EditModal {
  import opened Wrappers
  import opened Text
  import opened Tags
  import opened Rows

  /** The dialog's three text fields. */
  datatype Fields = Fields(name: string, description: string, tagsString: string)

  /** The effect on a new flag: its name, its description or "", its tags joined with ", ". */
  function Prefilled(flag: Row): (f: Fields)
    ensures f.name == flag.name
    ensures f.description == flag.description.GetOr("")
    ensures f.tagsString == Render(flag.tags.GetOr([]))
  {
    Fields(flag.name, flag.description.GetOr(""), Render(flag.tags.GetOr([])))
  }

  /** What `onSave` receives: only these four properties. */
  datatype SavePayload = SavePayload(id: int, name: string, description: string, tags: seq<string>)

  /** `handleSubmit`: the trimmed texts and the parsed tags of the flag shown. */
  function Saved(id: int, f: Fields): (p: SavePayload)
    ensures p.id == id
    ensures p.name == Trim(f.name) && p.description == Trim(f.description)
    ensures p.tags == Parse(f.tagsString) && forall i :: 0 <= i < |p.tags| ==> WellFormed(p.tags[i])
  {
    SavePayload(id, Trim(f.name), Trim(f.description), Parse(f.tagsString))
  }

  lemma TrimTrimmedOrEmpty(s: string)
    requires IsTrimmed(s)
    ensures Trim(s) == s
  {
    if s != [] {
      TrimTrimmed(s);
    } else {
      assert |Trim(s)| <= 0;
    }
  }

  /**
   * Saving without touching the fields gives the flag's own name,
   * description and tags back, when they are already trimmed and every tag
   * is non-empty, trimmed and comma-free.
   */
  lemma SaveUnchanged(flag: Row)
    requires IsTrimmed(flag.name)
    requires flag.description.Some? ==> IsTrimmed(flag.description.value)
    requires flag.tags.Some? ==> forall i :: 0 <= i < |flag.tags.value| ==> WellFormed(flag.tags.value[i])
    ensures Saved(flag.id, Prefilled(flag)) == SavePayload(flag.id, flag.name, flag.description.GetOr(""), flag.tags.GetOr([]))
  {
    TrimTrimmedOrEmpty(flag.name);
    TrimTrimmedOrEmpty(flag.description.GetOr(""));
    ParseRender(flag.tags.GetOr([]));
  }

  /** `onRequestDelete(flag.id, flag.name)`. */
  datatype DeleteRequest = DeleteRequest(id: int, name: string)

  function DeleteOf(flag: Row): (r: DeleteRequest)
    ensures r.id == flag.id && r.name == flag.name
  {
    DeleteRequest(flag.id, flag.name)
  }

  /** The dialog renders only when open and given a flag. */
  predicate Renders(isOpen: bool, flag: Option<Row>) {
    isOpen && flag.Some?
  }

  class Dialog {
    var fields: Fields

    constructor()
      ensures fields == Fields("", "", "")
    {
      fields := Fields("", "", "");
    }

    /** The effect on a change of the `flag` prop: a flag pre-fills the fields, none leaves them. */
    method FlagChanged(flag: Option<Row>)
      modifies this
      ensures flag.Some? ==> fields == Prefilled(flag.value)
      ensures flag.None? ==> fields == old(fields)
    {
      if flag.Some? {
        fields := Prefilled(flag.value);
      }
    }

    method SetName(text: string)
      modifies this
      ensures fields == old(fields).(name := text)
    {
      fields := fields.(name := text);
    }

    method SetDescription(text: string)
      modifies this
      ensures fields == old(fields).(description := text)
    {
      fields := fields.(description := text);
    }

    method SetTags(text: string)
      modifies this
      ensures fields == old(fields).(tagsString := text)
    {
      fields := fields.(tagsString := text);
    }

    /** Saving the rendered dialog. */
    function Submit(isOpen: bool, flag: Option<Row>): (p: SavePayload)
      reads this
      requires Renders(isOpen, flag)
      ensures p == Saved(flag.value.id, fields)
    {
      Saved(flag.value.id, fields)
    }
  }

  /** Opening on a flag and saving at once gives back what the flag held. */
  method OpenAndSave(flag: Row) returns (p: SavePayload)
    requires IsTrimmed(flag.name)
    requires flag.description.Some? ==> IsTrimmed(flag.description.value)
    requires flag.tags.Some? ==> forall i :: 0 <= i < |flag.tags.value| ==> WellFormed(flag.tags.value[i])
    ensures p.id == flag.id && p.name == flag.name && p.tags == flag.tags.GetOr([])
  {
    var d := new Dialog();
    d.FlagChanged(Some(flag));
    p := d.Submit(true, Some(flag));
    SaveUnchanged(flag);
  }
}
