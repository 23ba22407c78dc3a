/**
 * The colour theme (frontend/src/hooks/useDarkMode.js): read from local
 * storage or the system preference, written back to storage and to the
 * document root on every change, and switched by the toggle or by a change
 * of the system preference when storage holds no explicit choice.
 */
module DarkMode {
  import opened Wrappers

  datatype Theme = Light | Dark

  function Name(t: Theme): string {
    if t == Dark then "dark" else "light"
  }

  /** Storage holds an explicit choice: exactly "light" or "dark". */
  predicate Overrides(stored: Option<string>) {
    stored == Some("light") || stored == Some("dark")
  }

  /** The theme a system preference selects. */
  function Preferred(prefersDark: bool): Theme {
    if prefersDark then Dark else Light
  }

  /** `getInitialTheme`: the stored choice if there is one, else the system preference. */
  function InitialTheme(stored: Option<string>, prefersDark: bool): (t: Theme)
    ensures Overrides(stored) ==> stored == Some(Name(t))
    ensures !Overrides(stored) ==> t == Preferred(prefersDark)
  {
    if stored == Some("light") then Light
    else if stored == Some("dark") then Dark
    else Preferred(prefersDark)
  }

  /** What the toggle switches to: the other theme. */
  function Toggled(t: Theme): (u: Theme)
    ensures u != t
  {
    if t == Dark then Light else Dark
  }

  /** Two toggles give the theme back. */
  lemma ToggleTwice(t: Theme)
    ensures Toggled(Toggled(t)) == t
  {
  }

  /** Whatever the persist effect stores is an explicit choice. */
  lemma PersistedOverrides(t: Theme)
    ensures Overrides(Some(Name(t)))
  {
  }

  class ThemeState {
    var theme: Theme
    /** The "theme" entry of local storage. */
    var stored: Option<string>
    /** The root element has the "dark" class. */
    var darkClass: bool
    /** `document.documentElement.dataset.theme`. */
    var datasetTheme: Option<string>

    /** The root element shows the theme. */
    predicate Shows()
      reads this
    {
      darkClass == (theme == Dark) && datasetTheme == Some(Name(theme))
    }

    /** The persist effect has run for the current theme and storage has not been touched since. */
    predicate Persisted()
      reads this
    {
      Shows() && stored == Some(Name(theme))
    }

    /** Mounting: the initial theme, then the persist effect. */
    constructor(stored: Option<string>, prefersDark: bool)
      ensures theme == InitialTheme(stored, prefersDark)
      ensures Persisted()
    {
      theme := InitialTheme(stored, prefersDark);
      this.stored := Some(Name(InitialTheme(stored, prefersDark)));
      darkClass := InitialTheme(stored, prefersDark) == Dark;
      datasetTheme := Some(Name(InitialTheme(stored, prefersDark)));
    }

    /** `setTheme(t)`; the persist effect runs only when the theme changes. */
    method SetTheme(t: Theme)
      requires Shows()
      modifies this
      ensures theme == t
      ensures t != old(theme) ==> Persisted()
      ensures t == old(theme) ==> stored == old(stored)
      ensures Shows()
    {
      if t != theme {
        theme := t;
        darkClass := t == Dark;
        datasetTheme := Some(Name(t));
        stored := Some(Name(t));
      }
    }

    /** `toggleTheme`. */
    method Toggle()
      requires Shows()
      modifies this
      ensures theme == Toggled(old(theme))
      ensures Persisted()
    {
      SetTheme(Toggled(theme));
    }

    /** The system preference changed: it applies only while storage holds no explicit choice. */
    method SystemChange(matches: bool)
      requires Shows()
      modifies this
      ensures Overrides(old(stored)) ==> theme == old(theme) && stored == old(stored)
      ensures !Overrides(old(stored)) ==> theme == Preferred(matches)
      ensures Shows()
    {
      if !Overrides(stored) {
        SetTheme(Preferred(matches));
      }
    }

    /** Something else removes the stored choice. */
    method ClearStorage()
      modifies this
      ensures stored == None
      ensures theme == old(theme) && darkClass == old(darkClass) && datasetTheme == old(datasetTheme)
    {
      stored := None;
    }
  }

  /** After mounting, storage holds the theme, so a system change is ignored. */
  method SystemChangeAfterMount(stored: Option<string>, prefersDark: bool, matches: bool)
    returns (before: Theme, after: Theme)
    ensures after == before
  {
    var s := new ThemeState(stored, prefersDark);
    before := s.theme;
    PersistedOverrides(s.theme);
    s.SystemChange(matches);
    after := s.theme;
  }

  /** Once the stored choice is removed, the next system change applies. */
  method SystemChangeAfterClear(stored: Option<string>, prefersDark: bool, matches: bool)
    returns (after: Theme)
    ensures after == Preferred(matches)
  {
    var s := new ThemeState(stored, prefersDark);
    s.ClearStorage();
    s.SystemChange(matches);
    after := s.theme;
  }

  /** Two toggles restore the theme and leave it persisted. */
  method ToggleTwiceRestores(stored: Option<string>, prefersDark: bool) returns (before: Theme, after: Theme, persisted: Option<string>)
    ensures after == before && persisted == Some(Name(before))
  {
    var s := new ThemeState(stored, prefersDark);
    before := s.theme;
    s.Toggle();
    s.Toggle();
    ToggleTwice(before);
    after, persisted := s.theme, s.stored;
  }
}
