/**
 * The theme controller of the application root (src/App.tsx).
 *
 * The theme starts as "dark"; at load a non-empty stored value replaces it;
 * `ToggleTheme` flips it; after every change the value is written to storage
 * under the key "theme" and the document root gains or loses the class
 * "dark".  Storage is a map, the root's class list a set, and the system
 * colour-scheme query a boolean parameter.
 *
 * The stored value is adopted by an unchecked cast, so the theme is a
 * string: any non-empty stored string becomes the theme.
 */
module Theme {
  import opened Optional

  const Dark := "dark"
  const Light := "light"
  const StorageKey := "theme"
  const DarkClass := "dark"

  /** The two themes the components are written for. */
  predicate IsTheme(t: string) {
    t == Dark || t == Light
  }

  /** `getItem`: the stored string, or `None` for a missing key. */
  function GetItem(storage: map<string, string>, key: string): (r: Option<string>)
    ensures r.Some? <==> key in storage
    ensures r.Some? ==> r.value == storage[key]
  {
    if key in storage then Some(storage[key]) else None
  }

  /** The toggle: dark becomes light, anything else becomes dark. */
  function Toggled(t: string): (r: string)
    ensures IsTheme(r)
    ensures r == Light <==> t == Dark
  {
    if t == Dark then Light else Dark
  }

  /** Toggling one of the two themes twice gives it back. */
  lemma ToggleTwiceIsIdentity(t: string)
    requires IsTheme(t)
    ensures Toggled(Toggled(t)) == t
  {
  }

  /** A stored value that is not a theme is not restored by toggling twice. */
  lemma ToggleTwiceNormalises(t: string)
    ensures Toggled(Toggled(t)) == if t == Dark then Dark else Light
  {
  }

  /** The theme after `n` toggles. */
  function ToggledTimes(t: string, n: nat): (r: string)
    ensures n > 0 ==> IsTheme(r)
  {
    if n == 0 then t else Toggled(ToggledTimes(t, n - 1))
  }

  /** Successive toggles alternate strictly between the two themes. */
  lemma {:induction false} TogglesAlternate(t: string, n: nat)
    requires IsTheme(t)
    ensures ToggledTimes(t, n) == if n % 2 == 0 then t else Toggled(t)
  {
    if n > 0 {
      TogglesAlternate(t, n - 1);
    }
  }

  /**
   * The theme chosen at load: a non-empty stored value wins; otherwise the
   * theme keeps its initial value "dark", whatever the system prefers.
   */
  function InitialTheme(saved: Option<string>, systemPrefersDark: bool): (t: string)
    ensures saved.Some? && saved.value != "" ==> t == saved.value
    ensures saved.None? || saved.value == "" ==> t == Dark
  {
    if saved.Some? && saved.value != "" then saved.value
    else if systemPrefersDark then Dark
    else Dark
  }

  /** The system preference never decides the initial theme. */
  lemma SystemPreferenceIsIgnored(saved: Option<string>)
    ensures InitialTheme(saved, true) == InitialTheme(saved, false)
  {
  }

  /** The class list after applying a theme: only the class "dark" changes. */
  function AppliedClasses(classes: set<string>, t: string): (r: set<string>)
    ensures DarkClass in r <==> t == Dark
    ensures r - {DarkClass} == classes - {DarkClass}
  {
    if t == Dark then classes + {DarkClass} else classes - {DarkClass}
  }

  /**
   * Starting in sync, toggling twice restores the storage and the class list
   * to what they were.
   */
  lemma ToggleTwiceRestores(storage: map<string, string>, classes: set<string>, t: string)
    requires IsTheme(t) && StorageKey in storage && storage[StorageKey] == t
    requires DarkClass in classes <==> t == Dark
    ensures storage[StorageKey := Toggled(t)][StorageKey := Toggled(Toggled(t))] == storage
    ensures AppliedClasses(AppliedClasses(classes, Toggled(t)), Toggled(Toggled(t))) == classes
  {
  }

  /** The root component's theme state and the browser state it mirrors. */
  class ThemeController {
    var theme: string
    var storage: map<string, string>
    var rootClasses: set<string>

    /** Storage and the class list agree with the theme. */
    predicate Synced()
      reads this
    {
      StorageKey in storage && storage[StorageKey] == theme
      && (DarkClass in rootClasses <==> theme == Dark)
    }

    /**
     * Mounting: the theme starts as "dark"; the load effect reads the stored
     * value; the sync effect of the first render writes "dark"; the value
     * chosen at load is then adopted and synced.
     */
    constructor Mount(storage0: map<string, string>, classes0: set<string>, systemPrefersDark: bool)
      ensures theme == InitialTheme(GetItem(storage0, StorageKey), systemPrefersDark)
      ensures storage == storage0[StorageKey := theme]
      ensures rootClasses == AppliedClasses(classes0, theme)
      ensures Synced()
    {
      theme, storage, rootClasses := Dark, storage0, classes0;
      new;
      var savedTheme := GetItem(storage, StorageKey);
      Sync();
      if savedTheme.Some? && savedTheme.value != "" {
        theme := savedTheme.value;
      } else if systemPrefersDark {
        theme := Dark;
      }
      Sync();
    }

    /** The theme button. */
    method ToggleTheme()
      modifies this
      ensures theme == Toggled(old(theme))
      ensures storage == old(storage)[StorageKey := theme]
      ensures rootClasses == AppliedClasses(old(rootClasses), theme)
      ensures Synced()
    {
      theme := if theme == Dark then Light else Dark;
      Sync();
    }

    /** The sync effect: persist the theme and apply it to the document root. */
    method Sync()
      modifies this
      ensures theme == old(theme)
      ensures storage == old(storage)[StorageKey := theme]
      ensures rootClasses == AppliedClasses(old(rootClasses), theme)
      ensures Synced()
    {
      storage := storage[StorageKey := theme];
      if theme == Dark {
        rootClasses := rootClasses + {DarkClass};
      } else {
        rootClasses := rootClasses - {DarkClass};
      }
    }
  }
}
