/** The app's dark-mode flag: chosen on mount from the saved theme or the system
    preference, and written to local storage key "theme" and to the `dark` class of
    the document element after every change. */
module AppTheme {
  import opened Wrappers

  const ThemeKey: string := "theme"

  /** `localStorage.getItem("theme")`. */
  function SavedTheme(storage: map<string, string>): Option<string> {
    if ThemeKey in storage then Some(storage[ThemeKey]) else None
  }

  /** The mount effect's choice: a saved theme (when non-empty) decides by being
      exactly "dark"; otherwise the `prefers-color-scheme: dark` media query does. */
  function InitialDarkMode(saved: Option<string>, prefersDark: bool): (dark: bool)
    ensures saved.Some? && saved.value != "" ==> (dark <==> saved.value == "dark")
    ensures saved.None? || saved.value == "" ==> dark == prefersDark
  {
    if saved.Some? && saved.value != "" then saved.value == "dark" else prefersDark
  }

  function ThemeValue(dark: bool): (v: string)
    ensures v != ""
    ensures v == "dark" <==> dark
    ensures !dark ==> v == "light"
  {
    if dark then "dark" else "light"
  }

  /** Reading back the persisted theme restores the same flag, whatever the system
      preference. */
  lemma ThemeRoundTrip(dark: bool, prefersDark: bool, storage: map<string, string>)
    ensures InitialDarkMode(SavedTheme(storage[ThemeKey := ThemeValue(dark)]), prefersDark) == dark
  {
  }

  class Theme {
    var darkMode: bool
    /** Whether the document element has the `dark` class. */
    var darkClass: bool
    var storage: map<string, string>
    /** The flag's initial value, then its value after each `setDarkMode` call (the
        mount's included), in order. A call with an unchanged value is recorded too, although React skips
        that re-render. */
    ghost var renders: seq<bool>

    /** The flag persisted, and the class in step with it. */
    predicate Persisted()
      reads this
    {
      SavedTheme(storage) == Some(ThemeValue(darkMode)) && darkClass == darkMode
    }

    /** The persistence effect. */
    method Persist()
      modifies this
      ensures darkMode == old(darkMode) && renders == old(renders)
      ensures darkClass == darkMode && storage == old(storage)[ThemeKey := ThemeValue(darkMode)]
      ensures Persisted()
    {
      if darkMode {
        darkClass := true;
        storage := storage[ThemeKey := "dark"];
      } else {
        darkClass := false;
        storage := storage[ThemeKey := "light"];
      }
    }

    /** The first render has dark mode on; the mount effect then picks the flag from
        the saved theme or the system preference, and it is persisted. */
    constructor(storage0: map<string, string>, prefersDark: bool)
      ensures renders == [true, InitialDarkMode(SavedTheme(storage0), prefersDark)]
      ensures darkMode == InitialDarkMode(SavedTheme(storage0), prefersDark)
      ensures storage == storage0[ThemeKey := ThemeValue(darkMode)]
      ensures Persisted()
    {
      darkMode := true;
      darkClass := false;
      storage := storage0;
      renders := [true];
      new;
      var initial := InitialDarkMode(SavedTheme(storage), prefersDark);
      Persist();
      darkMode := initial;
      renders := renders + [initial];
      Persist();
    }

    /** `setDarkMode`, followed by the persistence effect. */
    method SetDarkMode(value: bool)
      modifies this
      ensures darkMode == value && renders == old(renders) + [value]
      ensures storage == old(storage)[ThemeKey := ThemeValue(value)]
      ensures Persisted()
    {
      darkMode := value;
      renders := renders + [value];
      Persist();
    }
  }
}
