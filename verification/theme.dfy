/** The theme preference: the system colour scheme unless the user chose
    one, a toggle, and the stored form of the choice ('dark' or 'light'
    under the key APP_THEME). */
module Theme {
  import opened Wrappers

  const ThemeKey: string := "APP_THEME"

  /** The colours the two themes set. */
  datatype Palette = Palette(primary: string, background: string, card: string, text: string,
                             border: string, notification: string, placeholder: string)

  const LightTheme: Palette := Palette("#1976d2", "#ffffff", "#f5f5f5", "#222222", "#e0e0e0", "#ff4d4f", "#888888")
  const DarkTheme: Palette := Palette("#90caf9", "#121212", "#1e1e1e", "#ffffff", "#272727", "#ff4d4f", "#AAAAAA")

  /** The provider's state: the user's choice, None until one is made or
      loaded. */
  datatype ThemeState = ThemeState(manualDark: Option<bool>)

  /** `isDark`: the user's choice if any, else whether the system scheme
      (None when unknown) is 'dark'. */
  function IsDark(s: ThemeState, systemScheme: Option<string>): (dark: bool)
    ensures s.manualDark.Some? ==> dark == s.manualDark.value
    ensures s.manualDark.None? ==> (dark <==> systemScheme == Some("dark"))
  {
    if s.manualDark.Some? then s.manualDark.value else systemScheme == Some("dark")
  }

  function ThemeOf(s: ThemeState, systemScheme: Option<string>): (p: Palette)
    ensures p == DarkTheme <==> IsDark(s, systemScheme)
    ensures p == LightTheme <==> !IsDark(s, systemScheme)
  {
    if IsDark(s, systemScheme) then DarkTheme else LightTheme
  }

  /** `toggleTheme()`: `prev === null ? !isDark : !prev`. */
  function Toggle(s: ThemeState, systemScheme: Option<string>): (r: ThemeState)
    ensures r.manualDark.Some?
    ensures IsDark(r, systemScheme) == !IsDark(s, systemScheme)
  {
    ThemeState(Some(!IsDark(s, systemScheme)))
  }

  /** Two toggles restore the look, and pin it as a manual choice. */
  lemma ToggleTwice(s: ThemeState, systemScheme: Option<string>)
    ensures IsDark(Toggle(Toggle(s, systemScheme), systemScheme), systemScheme) == IsDark(s, systemScheme)
    ensures Toggle(Toggle(s, systemScheme), systemScheme).manualDark == Some(IsDark(s, systemScheme))
  {
  }

  /** The stored value for a choice: written only when a choice exists. */
  function Encode(manualDark: Option<bool>): (stored: Option<string>)
    ensures stored.None? <==> manualDark.None?
    ensures stored.Some? ==> stored.value in {"dark", "light"}
  {
    match manualDark
    case None => None
    case Some(d) => Some(if d then "dark" else "light")
  }

  /** Loading the stored value: 'dark' is dark, any other string light,
      and nothing stored keeps the current state. */
  function Load(s: ThemeState, saved: Option<string>): (r: ThemeState)
    ensures saved.None? ==> r == s
    ensures saved.Some? ==> r.manualDark == Some(saved.value == "dark")
  {
    if saved.Some? then ThemeState(Some(saved.value == "dark")) else s
  }

  /** What is stored loads back as the same choice. */
  lemma LoadEncode(s: ThemeState, manualDark: Option<bool>)
    ensures Load(s, Encode(manualDark)) == (if manualDark.None? then s else ThemeState(manualDark))
  {
  }

  /** Re-encoding what was loaded writes a canonical value: whatever string
      was stored, the next write is 'dark' or 'light'. */
  lemma EncodeLoad(saved: string)
    ensures Encode(Load(ThemeState(None), Some(saved)).manualDark) == Some(if saved == "dark" then "dark" else "light")
  {
  }
}
