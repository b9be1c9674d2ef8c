/** The trip planner's pure steps: the category list it asks the places
    service for, the reshaping of the service's features into points of
    interest, and which message the screen shows when there are none or
    when a step throws. The location, the places request and the text
    generation are calls out of the program and are left to the caller:
    these functions take what those calls returned. */
module TripPlanner {
  import opened Common

  /** `categories`. */
  const Categories: seq<string> := [
    "entertainment", "catering", "commercial", "leisure", "natural", "tourism", "sport"
  ]

  /** `Array.prototype.join`: the parts with `sep` between neighbours. */
  function Join(parts: seq<string>, sep: string): (r: string)
    ensures |parts| > 0 ==> parts[0] <= r
    ensures |parts| > 0 ==> |parts[|parts| - 1]| <= |r| && r[|r| - |parts[|parts| - 1]|..] == parts[|parts| - 1]
    decreases |parts|
  {
    if |parts| == 0 then ""
    else if |parts| == 1 then parts[0]
    else parts[0] + sep + Join(parts[1..], sep)
  }

  /** `String.prototype.split` on one character, used as the independent
      reading of a joined list: the pieces between occurrences of `c`. */
  function Split(s: string, c: char): (r: seq<string>)
    ensures |r| >= 1
    decreases |s|
  {
    if |s| == 0 then [""]
    else
      var rest := Split(s[1..], c);
      if s[0] == c then [""] + rest else [[s[0]] + rest[0]] + rest[1..]
  }

  lemma {:induction false} SplitNoSeparator(p: string, c: char)
    requires c !in p
    ensures Split(p, c) == [p]
    decreases |p|
  {
    if |p| > 0 {
      SplitNoSeparator(p[1..], c);
      assert [p[0]] + p[1..] == p;
    }
  }

  lemma {:induction false} SplitAtSeparator(p: string, c: char, rest: string)
    requires c !in p
    ensures Split(p + [c] + rest, c) == [p] + Split(rest, c)
    decreases |p|
  {
    var s := p + [c] + rest;
    if |p| == 0 {
      assert s == [c] + rest;
      assert s[1..] == rest;
    } else {
      assert s[0] == p[0];
      assert s[1..] == p[1..] + [c] + rest;
      SplitAtSeparator(p[1..], c, rest);
      assert [p[0]] + p[1..] == p;
    }
  }

  /** Joining with a separator character that no part contains can be
      undone by splitting on it. */
  lemma {:induction false} SplitJoinRoundTrip(parts: seq<string>, c: char)
    requires |parts| >= 1
    requires forall i :: 0 <= i < |parts| ==> c !in parts[i]
    ensures Split(Join(parts, [c]), c) == parts
    decreases |parts|
  {
    if |parts| == 1 {
      SplitNoSeparator(parts[0], c);
    } else {
      SplitJoinRoundTrip(parts[1..], c);
      SplitAtSeparator(parts[0], c, Join(parts[1..], [c]));
      assert [parts[0]] + parts[1..] == parts;
    }
  }

  /** `categoriesString` can be read back as exactly the seven
      categories, in order. */
  lemma CategoriesStringLists()
    ensures Split(Join(Categories, ","), ',') == Categories
  {
    forall i | 0 <= i < |Categories|
      ensures ',' !in Categories[i]
    {
    }
    SplitJoinRoundTrip(Categories, ',');
  }

  // ---- features to points of interest ----------------------------------

  /** A feature's `properties`. Missing properties are `None`; a rating of
      `NaN` is not modelled. */
  datatype Properties = Properties(
    name: Option<string>,
    placeType: Option<string>,
    formatted: Option<string>,
    rating: Option<real>)

  /** One entry of `data.features`: `properties` and
      `geometry.coordinates`, `None` when the object on the access path is
      missing (reading through it throws). */
  datatype Feature = Feature(properties: Option<Properties>, coordinates: Option<seq<real>>)

  datatype Rating = Rated(stars: real) | NoRating  // "No rating"

  /** A transformed point of interest; a coordinate past the end of the
      array is `undefined`, here `None`. */
  datatype Poi = Poi(
    name: string,
    description: string,
    address: string,
    rating: Rating,
    latitude: Option<real>,
    longitude: Option<real>)

  /** `s || fallback` for a string that may be missing. */
  function OrElse(s: Option<string>, fallback: string): (r: string)
    ensures s.Some? && s.value != "" ==> r == s.value
    ensures !(s.Some? && s.value != "") ==> r == fallback
  {
    if s.Some? && s.value != "" then s.value else fallback
  }

  function At(c: seq<real>, i: nat): (x: Option<real>)
    ensures x.Some? <==> i < |c|
  {
    if i < |c| then Some(c[i]) else None
  }

  /** Reading the feature throws exactly when `properties` or the
      coordinates array is missing. */
  predicate Readable(f: Feature) {
    f.properties.Some? && f.coordinates.Some?
  }

  /** The `data.features.map` callback, for a readable feature. */
  function ToPoi(f: Feature): (p: Poi)
    requires Readable(f)
    ensures p.name != ""
    ensures p.description == (if f.properties.value.placeType.Some? then f.properties.value.placeType.value else "")
    ensures p.address == (if f.properties.value.formatted.Some? then f.properties.value.formatted.value else "")
    ensures p.rating.Rated? <==> f.properties.value.rating.Some? && f.properties.value.rating.value != 0.0
    ensures p.rating.Rated? ==> p.rating.stars == f.properties.value.rating.value
    ensures p.latitude.Some? <==> |f.coordinates.value| >= 2
    ensures p.longitude.Some? <==> |f.coordinates.value| >= 1
  {
    var props := f.properties.value;
    var c := f.coordinates.value;
    Poi(
      OrElse(props.name, "Unnamed place"),
      OrElse(props.placeType, ""),
      OrElse(props.formatted, ""),
      if props.rating.Some? && props.rating.value != 0.0 then Rated(props.rating.value) else NoRating,
      At(c, 1),
      At(c, 0))
  }

  /** A named place keeps its name; an unnamed or empty-named one is
      "Unnamed place". The GeoJSON order is longitude first, latitude
      second. */
  lemma ToPoiFields(f: Feature)
    requires Readable(f)
    ensures var props := f.properties.value;
            (props.name.Some? && props.name.value != "" ==> ToPoi(f).name == props.name.value)
            && (props.name.None? || props.name.value == "" ==> ToPoi(f).name == "Unnamed place")
    ensures |f.coordinates.value| >= 2 ==>
              ToPoi(f).latitude == Some(f.coordinates.value[1])
              && ToPoi(f).longitude == Some(f.coordinates.value[0])
  {
  }

  datatype PoiError =
    | NoPointsOfInterest   // the early return with its message
    | Thrown               // a `TypeError` caught by the `catch`

  /** From `data.features` to the list handed to the prompt: the map runs
      only over a non-empty array, throws at any unreadable feature, and
      an empty result ends the screen with the "no points" message. */
  function Pois(features: Option<seq<Feature>>): (r: Result<seq<Poi>, PoiError>)
    ensures r == Failure(NoPointsOfInterest) <==> features.None? || features.value == []
    ensures r == Failure(Thrown) <==>
              features.Some? && exists i :: 0 <= i < |features.value| && !Readable(features.value[i])
    ensures r.Success? ==> |r.value| == |features.value| > 0
    ensures r.Success? ==> forall i :: 0 <= i < |r.value| ==> r.value[i] == ToPoi(features.value[i])
  {
    if features.None? || features.value == [] then Failure(NoPointsOfInterest)
    else if exists i :: 0 <= i < |features.value| && !Readable(features.value[i]) then Failure(Thrown)
    else Success(seq(|features.value|, i requires 0 <= i < |features.value| => ToPoi(features.value[i])))
  }

  const NoPlacesMessage: string := "No points of interest found " + "in your area. Try a different location."
  const FailurePrefix: string := "Failed to fetch POIs or generate trip plan: "

  /** The `errorMsg` the screen shows for a failed step; `thrownMessage` is
      the caught error's `message`, which comes from the runtime. */
  function ErrorMessage(e: PoiError, thrownMessage: string): (m: string)
    ensures e.Thrown? ==> FailurePrefix <= m && m[|FailurePrefix|..] == thrownMessage
    ensures e.NoPointsOfInterest? ==> m == NoPlacesMessage
  {
    match e
    case NoPointsOfInterest => NoPlacesMessage
    case Thrown => FailurePrefix + thrownMessage
  }

  /** The two error messages can never be confused, whatever the runtime
      puts in the thrown error's message. */
  lemma ErrorMessagesDistinct(thrownMessage: string)
    ensures ErrorMessage(NoPointsOfInterest, thrownMessage) != ErrorMessage(Thrown, thrownMessage)
  {
    var m := ErrorMessage(Thrown, thrownMessage);
    assert m[0] == FailurePrefix[0] == 'F';
    assert NoPlacesMessage[0] == 'N';
  }

  /** Every point handed to the prompt has a name and its rating is either
      a non-zero number or "No rating". */
  lemma PromptPoisWellFormed(features: Option<seq<Feature>>)
    requires Pois(features).Success?
    ensures forall p :: p in Pois(features).value ==>
              p.name != "" && (p.rating.Rated? ==> p.rating.stars != 0.0)
  {
    var ps := Pois(features).value;
    forall p | p in ps
      ensures p.name != "" && (p.rating.Rated? ==> p.rating.stars != 0.0)
    {
      var i :| 0 <= i < |ps| && ps[i] == p;
      assert p == ToPoi(features.value[i]);
    }
  }
}
