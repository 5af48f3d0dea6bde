/**
 * The profile reducer: SET_INFERRED_CURRENT_LOCATION replaces the IP and the
 * inferred location, SET_THEME the theme; anything else is ignored.
 */
module ProfileReducer {
  import opened Wrappers
  import opened LocationPicker
  import opened ProfileActions

  datatype ProfileState = ProfileState(
    lastKnownIp: Option<string>,
    inferredCurrentUserLocation: Option<Location>,
    theme: string)

  /** `profileReducer`: a fresh state with the action's fields over the old ones. */
  function Reduce(s: ProfileState, a: ProfileAction): ProfileState
    requires WellFormed(a)
  {
    if a.kind == SET_INFERRED_CURRENT_LOCATION then
      s.(lastKnownIp := Some(a.payload.currentIp), inferredCurrentUserLocation := Some(a.payload.currentLocation))
    else if a.kind == SET_THEME then
      s.(theme := a.payload.theme)
    else
      s
  }

  /** Storing the inferred location sets the IP and the location and keeps the theme. */
  lemma InferredLocationStored(s: ProfileState, ip: string, loc: Location)
    ensures var r := Reduce(s, SetInferredCurrentLocation(ip, loc));
      r.lastKnownIp == Some(ip) && r.inferredCurrentUserLocation == Some(loc) && r.theme == s.theme
  {
  }

  /** The theme actions set the theme and keep the inferred location and IP. */
  lemma ThemeStored(s: ProfileState)
    ensures var r := Reduce(s, SetLightTheme());
      r.theme == LightTheme && r.lastKnownIp == s.lastKnownIp && r.inferredCurrentUserLocation == s.inferredCurrentUserLocation
    ensures var r := Reduce(s, SetDarkTheme());
      r.theme == DarkTheme && r.lastKnownIp == s.lastKnownIp && r.inferredCurrentUserLocation == s.inferredCurrentUserLocation
  {
  }

  /** Every profile action is idempotent: dispatching it twice is dispatching it once. */
  lemma ReduceIdempotent(s: ProfileState, a: ProfileAction)
    requires WellFormed(a)
    ensures Reduce(Reduce(s, a), a) == Reduce(s, a)
  {
  }

  /** The last theme action wins, whatever came before it. */
  lemma LastThemeWins(s: ProfileState, first: ProfileAction, second: ProfileAction)
    requires WellFormed(first) && WellFormed(second)
    requires first.kind == SET_THEME && second.kind == SET_THEME
    ensures Reduce(Reduce(s, first), second) == Reduce(s, second)
  {
  }

  /** Setting the location and setting the theme commute. */
  lemma LocationAndThemeCommute(s: ProfileState, loc: ProfileAction, theme: ProfileAction)
    requires WellFormed(loc) && WellFormed(theme)
    requires loc.kind == SET_INFERRED_CURRENT_LOCATION && theme.kind == SET_THEME
    ensures Reduce(Reduce(s, loc), theme) == Reduce(Reduce(s, theme), loc)
  {
    KindsDistinct();
  }

  /** Actions with another type string leave the state as it was. */
  lemma OtherActionsIgnored(s: ProfileState, a: ProfileAction)
    requires a.kind != SET_INFERRED_CURRENT_LOCATION && a.kind != SET_THEME
    ensures Reduce(s, a) == s
  {
  }
}
