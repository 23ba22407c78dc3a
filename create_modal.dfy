/**
 * The create dialog of the second layout
 * (frontend/src/components/v2/CreateFlagModalV2.jsx): a form reset each time
 * the dialog opens, an environment dropdown offering three environments, and
 * a submit that trims the texts and splits the tags.
 */
module CreateModal {
  import opened Text
  import opened Tags

  /** The environments the dropdown offers, in its order. */
  const Environments: seq<string> := ["Development", "Staging", "Production"]

  /**
   * `defaultEnv || (useContext(EnvContext) || 'Development')`, with a missing
   * prop or context value as "".
   */
  function InitialEnv(defaultEnv: string, contextEnv: string): (env: string)
    ensures env != ""
    ensures defaultEnv != "" ==> env == defaultEnv
    ensures defaultEnv == "" && contextEnv != "" ==> env == contextEnv
    ensures defaultEnv == "" && contextEnv == "" ==> env == "Development"
  {
    if defaultEnv != "" then defaultEnv else if contextEnv != "" then contextEnv else "Development"
  }

  /** When the prop and the context name listed environments or nothing, the dialog starts on a listed one. */
  lemma InitialEnvListed(defaultEnv: string, contextEnv: string)
    requires defaultEnv == "" || defaultEnv in Environments
    requires contextEnv == "" || contextEnv in Environments
    ensures InitialEnv(defaultEnv, contextEnv) in Environments
  {
  }

  /** `formData`; `tags` is the raw comma-separated text. */
  datatype Form = Form(name: string, environment: string, description: string, tags: string, enabled: bool)

  /** The form as each opening leaves it. */
  function Blank(env: string): (f: Form)
    ensures f.name == "" && f.description == "" && f.tags == "" && !f.enabled && f.environment == env
  {
    Form("", env, "", "", false)
  }

  /** What `onCreate` receives. */
  datatype Payload = Payload(name: string, environment: string, description: string, tags: seq<string>, enabled: bool)

  /**
   * The submit handler's payload: the name and description trimmed, the
   * tags parsed (each non-empty, trimmed and comma-free, in the order typed),
   * the environment and the switch passed through.
   */
  function Submitted(f: Form): (p: Payload)
    ensures p.name == Trim(f.name) && IsTrimmed(p.name)
    ensures p.description == Trim(f.description) && IsTrimmed(p.description)
    ensures p.tags == Parse(f.tags) && forall i :: 0 <= i < |p.tags| ==> WellFormed(p.tags[i])
    ensures p.environment == f.environment && p.enabled == f.enabled
  {
    Payload(Trim(f.name), f.environment, Trim(f.description), Parse(f.tags), f.enabled)
  }

  /** Typing two letters around a comma, as in "a,b", in the tag field submits those two tags. */
  lemma SubmittedTagsExample(f: Form, a: char, b: char)
    requires 'a' <= a <= 'z' && 'a' <= b <= 'z'
    requires f.tags == [a] + "," + [b]
    ensures Submitted(f).tags == [[a], [b]]
  {
    ParseExample(a, b);
  }

  class Dialog {
    const initialEnv: string
    var isOpen: bool
    var form: Form
    var dropdownOpen: bool

    /** The environment is the initial one or one the dropdown offers. */
    predicate Valid()
      reads this
    {
      form.environment == initialEnv || form.environment in Environments
    }

    constructor(defaultEnv: string, contextEnv: string)
      ensures initialEnv == InitialEnv(defaultEnv, contextEnv)
      ensures !isOpen && form == Blank(initialEnv) && !dropdownOpen
      ensures Valid()
    {
      initialEnv := InitialEnv(defaultEnv, contextEnv);
      isOpen := false;
      form := Blank(InitialEnv(defaultEnv, contextEnv));
      dropdownOpen := false;
    }

    /** Opening runs the reset effect: a blank form on the initial environment, dropdown closed. */
    method Open()
      modifies this
      ensures isOpen && form == Blank(initialEnv) && !dropdownOpen
      ensures Valid()
    {
      isOpen := true;
      form := Blank(initialEnv);
      dropdownOpen := false;
    }

    method Close()
      modifies this
      ensures !isOpen && form == old(form) && dropdownOpen == old(dropdownOpen)
    {
      isOpen := false;
    }

    method SetName(text: string)
      requires Valid()
      modifies this
      ensures form == old(form).(name := text)
      ensures isOpen == old(isOpen) && dropdownOpen == old(dropdownOpen) && Valid()
    {
      form := form.(name := text);
    }

    method SetDescription(text: string)
      requires Valid()
      modifies this
      ensures form == old(form).(description := text)
      ensures isOpen == old(isOpen) && dropdownOpen == old(dropdownOpen) && Valid()
    {
      form := form.(description := text);
    }

    method SetTags(text: string)
      requires Valid()
      modifies this
      ensures form == old(form).(tags := text)
      ensures isOpen == old(isOpen) && dropdownOpen == old(dropdownOpen) && Valid()
    {
      form := form.(tags := text);
    }

    method SetEnabled(checked: bool)
      requires Valid()
      modifies this
      ensures form == old(form).(enabled := checked)
      ensures isOpen == old(isOpen) && dropdownOpen == old(dropdownOpen) && Valid()
    {
      form := form.(enabled := checked);
    }

    /** The dropdown button opens or closes the list. */
    method ToggleDropdown()
      modifies this
      ensures dropdownOpen == !old(dropdownOpen)
      ensures isOpen == old(isOpen) && form == old(form)
    {
      dropdownOpen := !dropdownOpen;
    }

    /**
     * A click outside the dropdown closes it; the listener finds the
     * dropdown only while the dialog is rendered.
     */
    method ClickOutside()
      requires isOpen
      modifies this
      ensures !dropdownOpen
      ensures isOpen == old(isOpen) && form == old(form)
    {
      dropdownOpen := false;
    }

    /** Picking the `i`-th entry of the open list sets that environment and closes the list. */
    method Choose(i: nat)
      requires dropdownOpen && i < |Environments| && Valid()
      modifies this
      ensures form == old(form).(environment := Environments[i])
      ensures !dropdownOpen && isOpen == old(isOpen)
      ensures Valid()
    {
      form := form.(environment := Environments[i]);
      dropdownOpen := false;
    }

    /** Submitting the open dialog. */
    function Submit(): (p: Payload)
      reads this
      requires isOpen && Valid()
      ensures p == Submitted(form)
      ensures p.environment == initialEnv || p.environment in Environments
    {
      Submitted(form)
    }
  }

  /** Reopening after editing gives a blank form again. */
  method Reopen(defaultEnv: string, contextEnv: string, name: string, i: nat) returns (f: Form)
    requires i < |Environments|
    ensures f == Blank(InitialEnv(defaultEnv, contextEnv))
  {
    var d := new Dialog(defaultEnv, contextEnv);
    d.Open();
    d.SetName(name);
    d.ToggleDropdown();
    d.Choose(i);
    d.Close();
    d.Open();
    f := d.form;
  }
}
