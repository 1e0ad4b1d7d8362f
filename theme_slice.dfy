/** The `theme` store of the `client/` application: the chosen theme, which
    may defer to the operating system, and the scheme the system reports. */
module ThemeSlice {
  import opened ClientTypes

  datatype ThemeState = ThemeState(theme: Theme, systemTheme: Scheme)

  /** Follow the system, which is assumed light until it reports. */
  const Initial := ThemeState(System, Light)

  datatype Action = SetTheme(chosen: Theme) | SetSystemTheme(reported: Scheme) | ToggleTheme

  function Reduce(st: ThemeState, a: Action): ThemeState {
    match a
    case SetTheme(chosen) => st.(theme := chosen)
    case SetSystemTheme(reported) => st.(systemTheme := reported)
    case ToggleTheme =>
      if st.theme == Light then st.(theme := Dark)
      else if st.theme == Dark then st.(theme := Light)
      else st.(theme := Opposite(st.systemTheme))
  }

  /** The scheme the page is drawn in. */
  function Shown(st: ThemeState): Scheme {
    if st.theme == System then st.systemTheme else st.theme
  }

  /** Toggling always flips the scheme on screen, leaves an explicit choice
      behind, and never touches what the system reports. */
  lemma ToggleFlipsShown(st: ThemeState)
    ensures var r := Reduce(st, ToggleTheme);
      Shown(r) == Opposite(Shown(st)) && r.theme != System && r.theme == Shown(r)
      && r.systemTheme == st.systemTheme
  {
  }

  /** Toggling twice restores an explicit choice, and turns "follow the
      system" into the system's current scheme. */
  lemma ToggleTwice(st: ThemeState)
    ensures st.theme != System ==> Reduce(Reduce(st, ToggleTheme), ToggleTheme) == st
    ensures st.theme == System ==>
      Reduce(Reduce(st, ToggleTheme), ToggleTheme) == st.(theme := st.systemTheme)
  {
  }

  /** A new system scheme shows only while the theme follows the system;
      each setter assigns its own field and no other. */
  lemma SettersAssignOneField(st: ThemeState, chosen: Theme, reported: Scheme)
    ensures Reduce(st, SetTheme(chosen)).systemTheme == st.systemTheme
    ensures Reduce(st, SetTheme(chosen)).theme == chosen
    ensures Reduce(st, SetSystemTheme(reported)).theme == st.theme
    ensures Shown(Reduce(st, SetSystemTheme(reported))) == if st.theme == System then reported else Shown(st)
  {
  }

  class ThemeStore {
    var theme: Theme
    var systemTheme: Scheme

    function State(): ThemeState
      reads this
    {
      ThemeState(theme, systemTheme)
    }

    constructor()
      ensures State() == Initial
    {
      theme := System;
      systemTheme := Light;
    }

    method Dispatch(a: Action)
      modifies this
      ensures State() == Reduce(old(State()), a)
    {
      match a
      case SetTheme(chosen) =>
        theme := chosen;
      case SetSystemTheme(reported) =>
        systemTheme := reported;
      case ToggleTheme =>
        if theme == Light {
          theme := Dark;
        } else if theme == Dark {
          theme := Light;
        } else {
          theme := if systemTheme == Light then Dark else Light;
        }
    }
  }
}
