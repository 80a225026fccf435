/** Parsing of a geocoding response for one postal code (`geocode_api`):
    the alternate localities of the code, its coordinates and its city name. */
module Geocode {
  import opened Wrappers
  import opened Text

  /** A latitude or longitude as the service reports it. Only Python's
      truthiness of the number matters to the code: zero is false. */
  type Degree = int

  /** An entry of `address_components`. */
  datatype Component = Component(longName: Option<string>, types: Option<seq<string>>)

  /** `geometry.location`. */
  datatype Location = Location(lat: Option<Degree>, lng: Option<Degree>)

  /** `geometry`. */
  datatype Geometry = Geometry(location: Option<Location>)

  /** An entry of `results`; a field is None when its key is absent. */
  datatype GeoResult = GeoResult(
    addressComponents: Option<seq<Component>>,
    postcodeLocalities: Option<seq<string>>,
    geometry: Option<Geometry>)

  /** The HTTP status code and the decoded JSON body of a geocoding call. */
  datatype GeocodeResponse = GeocodeResponse(status: int, results: Option<seq<GeoResult>>)

  /** The triple `(localities, coordinates, city_name)` returned by the parser. */
  datatype Geocoded = Geocoded(
    localities: Option<seq<string>>,
    coordinates: Option<(Degree, Degree)>,
    cityName: Option<string>)

  /** `(None, None, None)`: what an unsuccessful status yields. */
  const NotFound := Geocoded(None, None, None)

  /** The empty object `{}` that stands in when `results` is absent. */
  const EmptyResult := GeoResult(None, None, None)

  /** `status_code in range(200, 299)`: 299 itself is not a success. */
  predicate IsSuccess(status: int) {
    200 <= status < 299
  }

  /** Python truthiness of an optional number: present and non-zero. */
  predicate Truthy(d: Option<Degree>) {
    d.Some? && d.value != 0
  }

  /** Python truthiness of an optional string: present and non-empty. */
  predicate TruthyText(s: Option<string>) {
    s.Some? && s.value != []
  }

  /** `'locality' in comp.get('types', [])`. */
  predicate IsLocality(c: Component) {
    c.types.Some? && "locality" in c.types.value
  }

  /** `next(comp['long_name'] for comp in comps if <locality>, None)`: the
      name of the first locality component, None when there is none, and a
      KeyError when that first locality component has no `long_name`. */
  function CityName(comps: seq<Component>): (r: Result<Option<string>>)
    ensures r == Ok(None) <==> forall i :: 0 <= i < |comps| ==> !IsLocality(comps[i])
    ensures r.Err? ==> r.error == KeyError("long_name")
  {
    if comps == [] then Ok(None)
    else if IsLocality(comps[0]) then
      (if comps[0].longName.Some? then Ok(Some(comps[0].longName.value)) else Err(KeyError("long_name")))
    else CityName(comps[1..])
  }

  /** CityName reads the first locality component and no later one. */
  lemma {:induction false} CityNameIsFirstLocality(comps: seq<Component>, i: nat)
    requires i < |comps| && IsLocality(comps[i])
    requires forall j :: 0 <= j < i ==> !IsLocality(comps[j])
    ensures comps[i].longName.Some? ==> CityName(comps) == Ok(Some(comps[i].longName.value))
    ensures comps[i].longName.None? ==> CityName(comps) == Err(KeyError("long_name"))
  {
    if i > 0 {
      CityNameIsFirstLocality(comps[1..], i - 1);
    }
  }

  /** `city_name.lower() not in el.lower()`, with ASCII case folding. */
  predicate Keeps(city: string, el: string) {
    !Contains(Lower(el), Lower(city))
  }

  /** The list comprehension that drops every locality naming the city. */
  function FilterLocalities(locs: seq<string>, city: string): (r: seq<string>)
    ensures |r| <= |locs|
    ensures forall k :: 0 <= k < |r| ==> r[k] in locs && Keeps(city, r[k])
  {
    if locs == [] then []
    else (if Keeps(city, locs[0]) then [locs[0]] else []) + FilterLocalities(locs[1..], city)
  }

  /** a can be obtained from b by deleting elements: order is preserved. */
  ghost predicate IsSubsequence<T>(a: seq<T>, b: seq<T>)
    decreases |b|
  {
    if a == [] then true
    else if b == [] then false
    else if a[0] == b[0] then IsSubsequence(a[1..], b[1..])
    else IsSubsequence(a, b[1..])
  }

  /** The filter keeps exactly the localities that do not name the city, in
      their original order. */
  lemma {:induction false} FilterLocalitiesExact(locs: seq<string>, city: string)
    ensures IsSubsequence(FilterLocalities(locs, city), locs)
    ensures forall el :: el in FilterLocalities(locs, city) <==> el in locs && Keeps(city, el)
  {
    if locs != [] {
      FilterLocalitiesExact(locs[1..], city);
      var rest := FilterLocalities(locs[1..], city);
      if Keeps(city, locs[0]) {
        assert ([locs[0]] + rest)[1..] == rest;
      } else {
        assert [] + rest == rest;
        SubsequenceOfTail(rest, locs);
      }
      assert locs == [locs[0]] + locs[1..];
    }
  }

  /** Each kept locality occurs in the result as often as in the input. */
  lemma {:induction false} FilterLocalitiesCounts(locs: seq<string>, city: string)
    ensures forall el :: multiset(FilterLocalities(locs, city))[el] == if Keeps(city, el) then multiset(locs)[el] else 0
  {
    if locs != [] {
      FilterLocalitiesCounts(locs[1..], city);
      var head := if Keeps(city, locs[0]) then [locs[0]] else [];
      assert multiset(head + FilterLocalities(locs[1..], city)) == multiset(head) + multiset(FilterLocalities(locs[1..], city));
      assert locs == [locs[0]] + locs[1..];
      assert multiset(locs) == multiset([locs[0]]) + multiset(locs[1..]);
    }
  }

  /** A subsequence of the tail of b is a subsequence of b. */
  lemma {:induction false} SubsequenceOfTail<T>(a: seq<T>, b: seq<T>)
    requires b != [] && IsSubsequence(a, b[1..])
    ensures IsSubsequence(a, b)
    decreases |b|, 1
  {
    if a != [] && a[0] == b[0] {
      SubsequenceDropHead(a, b[1..]);
    }
  }

  /** Dropping the head of a subsequence keeps it a subsequence. */
  lemma {:induction false} SubsequenceDropHead<T>(a: seq<T>, c: seq<T>)
    requires a != [] && IsSubsequence(a, c)
    ensures IsSubsequence(a[1..], c)
    decreases |c| + 1, 0
  {
    if a[0] == c[0] {
      if a[1..] != [] {
        SubsequenceOfTail(a[1..], c);
      }
    } else {
      SubsequenceDropHead(a, c[1..]);
      if a[1..] != [] {
        SubsequenceOfTail(a[1..], c);
      }
    }
  }

  /** `result.get('geometry', {}).get('location', {}).get(key)` for lat and lng. */
  function Latitude(g: Option<Geometry>): Option<Degree> {
    if g.Some? && g.value.location.Some? then g.value.location.value.lat else None
  }

  function Longitude(g: Option<Geometry>): Option<Degree> {
    if g.Some? && g.value.location.Some? then g.value.location.value.lng else None
  }

  /** `(lat, lng) if lat and lng else None`. */
  function Coordinates(g: Option<Geometry>): (c: Option<(Degree, Degree)>)
    ensures c.Some? <==> Truthy(Latitude(g)) && Truthy(Longitude(g))
    ensures c.Some? ==> c.value == (Latitude(g).value, Longitude(g).value) && c.value.0 != 0 && c.value.1 != 0
  {
    var lat := Latitude(g);
    var lng := Longitude(g);
    if Truthy(lat) && Truthy(lng) then Some((lat.value, lng.value)) else None
  }

  /** The first result of the response, `{}` when the key is absent, and an
      IndexError when the list is present but empty. */
  function FirstResult(resp: GeocodeResponse): (r: Result<GeoResult>)
    ensures r.Err? <==> resp.results == Some([])
    ensures r.Err? ==> r.error == IndexError
    ensures resp.results.None? ==> r == Ok(EmptyResult)
    ensures r.Ok? && resp.results.Some? ==> r.value == resp.results.value[0]
  {
    match resp.results
    case None => Ok(EmptyResult)
    case Some(rs) => if rs == [] then Err(IndexError) else Ok(rs[0])
  }

  /** `geocode_api` after the HTTP call: the response is given. */
  function ParseGeocode(resp: GeocodeResponse): (r: Result<Geocoded>)
    ensures !IsSuccess(resp.status) ==> r == Ok(NotFound)
    ensures IsSuccess(resp.status) && resp.results == Some([]) ==> r == Err(IndexError)
    ensures r.Ok? && r.value.localities.Some? && TruthyText(r.value.cityName) ==>
      forall k :: 0 <= k < |r.value.localities.value| ==> Keeps(r.value.cityName.value, r.value.localities.value[k])
  {
    if !IsSuccess(resp.status) then Ok(NotFound)
    else
      match FirstResult(resp)
      case Err(e) => Err(e)
      case Ok(result) =>
        var comps := if result.addressComponents.Some? then result.addressComponents.value else [];
        match CityName(comps)
        case Err(e) => Err(e)
        case Ok(city) =>
          var locs := result.postcodeLocalities;
          var filtered :=
            if locs.Some? && locs.value != [] && TruthyText(city)
            then Some(FilterLocalities(locs.value, city.value))
            else locs;
          Ok(Geocoded(filtered, Coordinates(result.geometry), city))
  }

  /** `range(200, 299)` stops before 299: the statuses 200 to 298 succeed,
      and a 299 response is treated like a failed lookup. */
  lemma SuccessRange(status: int, results: Option<seq<GeoResult>>)
    ensures IsSuccess(status) <==> 200 <= status <= 298
    ensures status == 299 ==> ParseGeocode(GeocodeResponse(status, results)) == Ok(NotFound)
  {
  }

  /** On success, the city name is the name of the first locality component
      of the first result. */
  lemma GeocodeCityName(resp: GeocodeResponse, result: GeoResult, i: nat)
    requires IsSuccess(resp.status) && FirstResult(resp) == Ok(result)
    requires result.addressComponents.Some?
    requires i < |result.addressComponents.value|
    requires IsLocality(result.addressComponents.value[i])
    requires forall j :: 0 <= j < i ==> !IsLocality(result.addressComponents.value[j])
    ensures var name := result.addressComponents.value[i].longName;
      && (name.Some? ==> ParseGeocode(resp).Ok? && ParseGeocode(resp).value.cityName == name)
      && (name.None? ==> ParseGeocode(resp) == Err(KeyError("long_name")))
  {
    CityNameIsFirstLocality(result.addressComponents.value, i);
  }

  /** Coordinates come back exactly when both lat and lng are present and
      non-zero; either way, the city name and localities are returned. */
  lemma GeocodeCoordinates(resp: GeocodeResponse, result: GeoResult)
    requires IsSuccess(resp.status) && FirstResult(resp) == Ok(result)
    requires ParseGeocode(resp).Ok?
    ensures var g := ParseGeocode(resp).value;
      && (g.coordinates.Some? <==> Truthy(Latitude(result.geometry)) && Truthy(Longitude(result.geometry)))
      && (g.coordinates.Some? ==> g.coordinates.value == (Latitude(result.geometry).value, Longitude(result.geometry).value))
  {
  }

  /** The geometry of the first result decides the coordinates and nothing
      else: two responses that differ only in that geometry give the same
      localities, the same city name and the same outcome. */
  lemma GeometryIndependence(status: int, result: GeoResult, rest: seq<GeoResult>, geometry: Option<Geometry>)
    ensures var a := ParseGeocode(GeocodeResponse(status, Some([result] + rest)));
      var b := ParseGeocode(GeocodeResponse(status, Some([result.(geometry := geometry)] + rest)));
      && a.Ok? == b.Ok?
      && (a.Ok? ==> a.value.localities == b.value.localities && a.value.cityName == b.value.cityName)
  {
  }

  /** The locality list is filtered only when it and the city name are both
      non-empty; the filtered list keeps, in order, exactly the localities
      that do not contain the city name (ignoring ASCII case). Otherwise the
      list comes back as given. */
  lemma GeocodeLocalities(resp: GeocodeResponse, result: GeoResult)
    requires IsSuccess(resp.status) && FirstResult(resp) == Ok(result)
    requires ParseGeocode(resp).Ok?
    ensures var g := ParseGeocode(resp).value;
      var locs := result.postcodeLocalities;
      if locs.Some? && locs.value != [] && TruthyText(g.cityName) then
        && g.localities.Some?
        && IsSubsequence(g.localities.value, locs.value)
        && (forall el :: el in g.localities.value <==> el in locs.value && Keeps(g.cityName.value, el))
        && (forall el :: multiset(g.localities.value)[el] == if Keeps(g.cityName.value, el) then multiset(locs.value)[el] else 0)
      else
        g.localities == locs
  {
    var g := ParseGeocode(resp).value;
    var locs := result.postcodeLocalities;
    if locs.Some? && locs.value != [] && TruthyText(g.cityName) {
      FilterLocalitiesExact(locs.value, g.cityName.value);
      FilterLocalitiesCounts(locs.value, g.cityName.value);
    }
  }

  /** A successful response whose first result has one locality component
      naming `city`, one alternate locality `loc`, and a location. */
  function OneLocalityResponse(city: string, loc: string, lat: Degree, lng: Degree): GeocodeResponse {
    GeocodeResponse(200, Some([GeoResult(
      Some([Component(Some(city), Some(["locality", "political"]))]),
      Some([loc]),
      Some(Geometry(Some(Location(Some(lat), Some(lng))))))]))
  }

  /** A locality that holds the city name verbatim is dropped by the
      filter, whatever the case of its letters. */
  lemma {:induction false} NamingLocalityDropped(city: string, el: string, i: nat)
    requires i + |city| <= |el| && el[i..i + |city|] == city
    ensures !Keeps(city, el)
  {
    var hay := Lower(el);
    var needle := Lower(city);
    forall k | 0 <= k < |needle|
      ensures hay[i..i + |needle|][k] == needle[k]
    {
      assert el[i + k] == city[k];
    }
    assert OccursAt(needle, hay, i);
    ContainsIffOccurs(hay, needle);
  }

  /** An alternate locality that names the city (as "Chelsea, New York"
      names "New York") is filtered out, leaving an empty list; coordinates
      and city name come back. */
  lemma CityLocalityDropped(city: string, loc: string, i: nat, lat: Degree, lng: Degree)
    requires city != [] && lat != 0 && lng != 0
    requires i + |city| <= |loc| && loc[i..i + |city|] == city
    ensures ParseGeocode(OneLocalityResponse(city, loc, lat, lng)) == Ok(Geocoded(Some([]), Some((lat, lng)), Some(city)))
  {
    var result := OneLocalityResponse(city, loc, lat, lng).results.value[0];
    assert CityName(result.addressComponents.value) == Ok(Some(city)) by {
      assert IsLocality(result.addressComponents.value[0]);
    }
    assert FilterLocalities([loc], city) == [] by {
      NamingLocalityDropped(city, loc, i);
    }
  }
}
