/**
 * The location picker: the geocode result pipeline that turns a search
 * response into at most three selectable locations, and the picker's own
 * state (selected location, search text, result box visibility).
 */
module LocationPicker {
  import opened Wrappers

  /**
   * A location as the picker produces it. Latitude and longitude are kept
   * as the opaque text the geocoding service returned.
   */
  datatype Location = Location(placeId: int, name: string, latitude: string, longitude: string)

  /** One record of the geocoding service's search response. */
  datatype GeocodeResult = GeocodeResult(
    placeId: int, displayName: string, kind: string, lat: string, lon: string)

  const MaxSearchOptions: nat := 3

  const ValidResultTypes: seq<string> := ["town", "city", "suburb", "village", "administrative"]

  /** The filter's test: an accepted type, and not the current location suggestion itself. */
  predicate Keep(x: GeocodeResult, suggestion: Option<Location>) {
    x.kind in ValidResultTypes && (suggestion.None? || suggestion.value.placeId != x.placeId)
  }

  function Filter(xs: seq<GeocodeResult>, suggestion: Option<Location>): (r: seq<GeocodeResult>)
    ensures |r| <= |xs|
    ensures forall k :: 0 <= k < |r| ==> Keep(r[k], suggestion) && r[k] in xs
  {
    if xs == [] then []
    else if Keep(xs[0], suggestion) then [xs[0]] + Filter(xs[1..], suggestion)
    else Filter(xs[1..], suggestion)
  }

  /** The `map` step: `place_id` becomes the place id, `display_name` the name. */
  function ToLocation(x: GeocodeResult): Location {
    Location(x.placeId, x.displayName, x.lat, x.lon)
  }

  /** The pipeline: filter, keep the first three, convert. */
  function SearchResults(json: seq<GeocodeResult>, suggestion: Option<Location>): seq<Location> {
    var kept := Filter(json, suggestion);
    var top := kept[..if |kept| < MaxSearchOptions then |kept| else MaxSearchOptions];
    seq(|top|, k requires 0 <= k < |top| => ToLocation(top[k]))
  }

  /**
   * An independent single-pass reading of the pipeline: walk the response
   * once, taking each acceptable record while fewer than `budget` are taken.
   */
  function FirstSurvivors(json: seq<GeocodeResult>, suggestion: Option<Location>, budget: nat): seq<Location>
  {
    if json == [] || budget == 0 then []
    else if Keep(json[0], suggestion) then [ToLocation(json[0])] + FirstSurvivors(json[1..], suggestion, budget - 1)
    else FirstSurvivors(json[1..], suggestion, budget)
  }

  lemma {:induction false} FilterTakeIsFirstSurvivors(json: seq<GeocodeResult>, suggestion: Option<Location>, budget: nat)
    ensures var kept := Filter(json, suggestion);
            var n := if |kept| < budget then |kept| else budget;
            FirstSurvivors(json, suggestion, budget) == seq(n, k requires 0 <= k < n => ToLocation(kept[k]))
  {
    if json != [] && budget != 0 {
      var keptRest := Filter(json[1..], suggestion);
      if Keep(json[0], suggestion) {
        assert Filter(json, suggestion) == [json[0]] + keptRest;
        assert FirstSurvivors(json, suggestion, budget) ==
          [ToLocation(json[0])] + FirstSurvivors(json[1..], suggestion, budget - 1);
        FilterTakeIsFirstSurvivors(json[1..], suggestion, budget - 1);
        ConvertCons(json[0], keptRest, if |keptRest| < budget - 1 then |keptRest| else budget - 1);
      } else {
        assert Filter(json, suggestion) == keptRest;
        assert FirstSurvivors(json, suggestion, budget) == FirstSurvivors(json[1..], suggestion, budget);
        FilterTakeIsFirstSurvivors(json[1..], suggestion, budget);
      }
    }
  }

  /** Converting the first n + 1 records of x :: rest is converting x, then the first n of rest. */
  lemma ConvertCons(x: GeocodeResult, rest: seq<GeocodeResult>, n: nat)
    requires n <= |rest|
    ensures var xs := [x] + rest;
      seq(n + 1, k requires 0 <= k < n + 1 => ToLocation(xs[k])) ==
        [ToLocation(x)] + seq(n, k requires 0 <= k < n => ToLocation(rest[k]))
  {
  }

  /** The results are exactly the first (at most three) acceptable records, in response order. */
  lemma SearchResultsAreFirstSurvivors(json: seq<GeocodeResult>, suggestion: Option<Location>)
    ensures SearchResults(json, suggestion) == FirstSurvivors(json, suggestion, MaxSearchOptions)
  {
    FilterTakeIsFirstSurvivors(json, suggestion, MaxSearchOptions);
  }

  /**
   * Every result comes from an acceptable record of the response (valid
   * type, not the suggestion), carries that record's id and name, never the
   * suggestion's id, and there are at most three of them.
   */
  lemma SearchResultsProperties(json: seq<GeocodeResult>, suggestion: Option<Location>)
    ensures |SearchResults(json, suggestion)| <= MaxSearchOptions
    ensures forall k :: 0 <= k < |SearchResults(json, suggestion)| ==>
      exists i :: (0 <= i < |json| && json[i].kind in ValidResultTypes && Keep(json[i], suggestion) &&
        SearchResults(json, suggestion)[k] == Location(json[i].placeId, json[i].displayName, json[i].lat, json[i].lon))
    ensures suggestion.Some? ==>
      forall k :: 0 <= k < |SearchResults(json, suggestion)| ==>
        SearchResults(json, suggestion)[k].placeId != suggestion.value.placeId
  {
    var kept := Filter(json, suggestion);
    var r := SearchResults(json, suggestion);
    forall k | 0 <= k < |r|
      ensures exists i :: (0 <= i < |json| && json[i].kind in ValidResultTypes && Keep(json[i], suggestion) &&
        r[k] == Location(json[i].placeId, json[i].displayName, json[i].lat, json[i].lon))
    {
      assert kept[k] in json;
      var i :| 0 <= i < |json| && json[i] == kept[k];
      assert Keep(kept[k], suggestion);
      assert r[k] == ToLocation(json[i]);
    }
    assert forall k :: 0 <= k < |r| ==> r[k] == ToLocation(kept[k]) && Keep(kept[k], suggestion);
  }

  /** Fewer than three acceptable records: all of them are offered. */
  lemma SearchResultsKeepAllWhenFew(json: seq<GeocodeResult>, suggestion: Option<Location>)
    requires |Filter(json, suggestion)| <= MaxSearchOptions
    ensures |SearchResults(json, suggestion)| == |Filter(json, suggestion)|
  {
  }

  /**
   * The picker's state. `location` is the selected location, `searchValue`
   * the text typed (None is `undefined`), `resultBoxVisible` whether the
   * result box is shown and `searchResults` what it lists. Methods return
   * the values passed to `onChange`, in call order.
   */
  class Picker {
    var location: Option<Location>
    var searchValue: Option<string>
    var resultBoxVisible: bool
    var searchResults: seq<Location>

    /**
     * Mounting with an initial `value`, after the mount effects: with no
     * value the closed box wipes the search text to ""; an empty search
     * text clears the location.
     */
    constructor (value: Option<Location>)
      ensures value.None? ==> searchValue == Some("") && location == None
      ensures value.Some? ==> searchValue == Some(value.value.name)
      ensures value.Some? ==> location == (if value.value.name == "" then None else value)
      ensures !resultBoxVisible && searchResults == []
    {
      var text := if value.Some? then Some(value.value.name) else None;
      var loc := if text == Some("") then None else value;
      if value.None? {
        text := Some("");
      }
      location := loc;
      searchValue := text;
      resultBoxVisible := false;
      searchResults := [];
    }

    /**
     * Typing `v` into the search field (the dummy field also opens the
     * box). When the text changes to "", the location is cleared and
     * `undefined` is reported.
     */
    method ChangeSearch(v: string, fromDummyField: bool) returns (reported: seq<Option<Location>>)
      modifies this
      ensures searchValue == Some(v) && searchResults == old(searchResults)
      ensures resultBoxVisible == (old(resultBoxVisible) || fromDummyField)
      ensures v == "" && old(searchValue) != Some("") ==> location == None && reported == [None]
      ensures !(v == "" && old(searchValue) != Some("")) ==> location == old(location) && reported == []
    {
      if fromDummyField {
        resultBoxVisible := true;
      }
      var previous := searchValue;
      searchValue := Some(v);
      reported := [];
      if searchValue != previous && v == "" {
        location := None;
        reported := [None];
      }
    }

    /**
     * The search effect starting a request for the debounced text: only
     * while the box is shown, and a non-empty text first empties the list.
     */
    method BeginSearch(debouncedSearchValue: Option<string>)
      modifies this`searchResults
      ensures resultBoxVisible && debouncedSearchValue.Some? && debouncedSearchValue.value != "" ==> searchResults == []
      ensures !(resultBoxVisible && debouncedSearchValue.Some? && debouncedSearchValue.value != "") ==>
        searchResults == old(searchResults)
    {
      if !resultBoxVisible {
        return;
      }
      if debouncedSearchValue.Some? && debouncedSearchValue.value != "" {
        searchResults := [];
      }
    }

    /** A request failed: the list is emptied. */
    method FailSearch()
      modifies this`searchResults
      ensures searchResults == []
    {
      searchResults := [];
    }

    /** A response arrived: the box lists the pipeline's output. */
    method ReceiveResults(json: seq<GeocodeResult>, suggestion: Option<Location>)
      modifies this`searchResults
      ensures searchResults == SearchResults(json, suggestion)
    {
      searchResults := SearchResults(json, suggestion);
    }

    /**
     * Choosing a result: it becomes the location and is reported, its name
     * fills the search text and the box closes. A result with an empty name
     * then falls under the empty-search rule.
     */
    method SelectResult(item: Location) returns (reported: seq<Option<Location>>)
      modifies this
      ensures searchValue == Some(item.name) && !resultBoxVisible
      ensures searchResults == old(searchResults)
      ensures item.name == "" && old(searchValue) != Some("") ==> location == None && reported == [Some(item), None]
      ensures !(item.name == "" && old(searchValue) != Some("")) ==> location == Some(item) && reported == [Some(item)]
    {
      var previous := searchValue;
      location := Some(item);
      reported := [Some(item)];
      searchValue := Some(item.name);
      resultBoxVisible := false;
      if searchValue != previous && item.name == "" {
        location := None;
        reported := reported + [None];
      }
    }

    /**
     * The box closes. When it was open and no location is selected, the
     * search text is wiped to "", and if that changed it, the empty-search
     * rule reports `undefined`.
     */
    method CloseResultBox() returns (reported: seq<Option<Location>>)
      modifies this
      ensures !resultBoxVisible && searchResults == old(searchResults) && location == old(location)
      ensures old(resultBoxVisible) && old(location).None? ==> searchValue == Some("")
      ensures !(old(resultBoxVisible) && old(location).None?) ==> searchValue == old(searchValue)
      ensures reported == (if old(resultBoxVisible) && old(location).None? && old(searchValue) != Some("") then [None] else [])
    {
      var wasVisible := resultBoxVisible;
      resultBoxVisible := false;
      reported := [];
      if wasVisible && location.None? {
        var previous := searchValue;
        searchValue := Some("");
        if previous != Some("") {
          reported := [None];
        }
      }
    }
  }
}
