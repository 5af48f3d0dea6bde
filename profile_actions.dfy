/**
 * The profile store's commands: the remembered IP address with the location
 * inferred from it, and the colour theme.
 */
module ProfileActions {
  import opened Wrappers
  import opened LocationPicker

  const SET_INFERRED_CURRENT_LOCATION: string := "profile/setInferredCurrentLocation"
  const SET_THEME: string := "profile/setTheme"
  const LightTheme: string := "light"
  const DarkTheme: string := "dark"

  datatype ProfilePayload =
    | InferredLocationPayload(currentIp: string, currentLocation: Location)
    | ThemePayload(theme: string)
    | OtherPayload   // any action of another part of the store

  /** A dispatched action `{ type, payload }`. */
  datatype ProfileAction = ProfileAction(kind: string, payload: ProfilePayload)

  /** The payload has the shape its type string announces. */
  predicate WellFormed(a: ProfileAction) {
    && (a.kind == SET_INFERRED_CURRENT_LOCATION ==> a.payload.InferredLocationPayload?)
    && (a.kind == SET_THEME ==> a.payload.ThemePayload?)
  }

  /** The two type strings differ, so the reducer's `switch` picks one case per action. */
  lemma KindsDistinct()
    ensures SET_INFERRED_CURRENT_LOCATION != SET_THEME
  {
    assert SET_INFERRED_CURRENT_LOCATION[8] == 's' && SET_THEME[8] == 's';
    assert SET_INFERRED_CURRENT_LOCATION[11] == 'I' && SET_THEME[11] == 'T';
  }

  /** `setInferredCurrentLocation`: the IP and the location travel unchanged. */
  function SetInferredCurrentLocation(currentIp: string, currentLocation: Location): (a: ProfileAction)
    ensures WellFormed(a) && a.kind == SET_INFERRED_CURRENT_LOCATION
    ensures a.payload.currentIp == currentIp && a.payload.currentLocation == currentLocation
  {
    KindsDistinct();
    ProfileAction(SET_INFERRED_CURRENT_LOCATION, InferredLocationPayload(currentIp, currentLocation))
  }

  /** `setLightTheme`: a SET_THEME action carrying "light". */
  function SetLightTheme(): (a: ProfileAction)
    ensures WellFormed(a) && a.kind == SET_THEME && a.payload.theme == LightTheme
  {
    KindsDistinct();
    ProfileAction(SET_THEME, ThemePayload(LightTheme))
  }

  /** `setDarkTheme`: a SET_THEME action carrying "dark". */
  function SetDarkTheme(): (a: ProfileAction)
    ensures WellFormed(a) && a.kind == SET_THEME && a.payload.theme == DarkTheme
  {
    KindsDistinct();
    ProfileAction(SET_THEME, ThemePayload(DarkTheme))
  }

  /**
   * What `inferCurrentLocation` dispatches once both services have answered:
   * the IP service's address with the first geocode record as a location,
   * or nothing when the geocode service found no record. The two requests
   * themselves are parameters here.
   */
  function InferredLocationAction(ipQuery: string, geoCodeResults: seq<GeocodeResult>): (r: Option<ProfileAction>)
    ensures r.Some? <==> |geoCodeResults| > 0
    ensures r.Some? ==> WellFormed(r.value) && r.value.kind == SET_INFERRED_CURRENT_LOCATION
    ensures r.Some? ==> r.value.payload.currentIp == ipQuery
    ensures r.Some? ==> var first := geoCodeResults[0];
      r.value.payload.currentLocation == Location(first.placeId, first.displayName, first.lat, first.lon)
  {
    if |geoCodeResults| > 0 then Some(SetInferredCurrentLocation(ipQuery, ToLocation(geoCodeResults[0]))) else None
  }
}
