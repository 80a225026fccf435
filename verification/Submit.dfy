/** The submit branch of the form: choosing between ZIP mode, Area mode and
    the conflict case, building the ordered list of text-search queries, and
    handing it to the aggregation. The geocoding, search and details services
    are parameters; so is the rendering of a coordinate into the URL. */
module Submit {
  import opened Wrappers
  import opened Text
  import opened Geocode
  import opened Details
  import opened Places

  const TextSearchEndpoint := "https://maps.googleapis.com/maps/api/place/textsearch/json"

  /** Every text-search URL starts with this and ends with `&key=` and the key. */
  const QueryPrefix := TextSearchEndpoint + "?query="
  const KeyParam := "&key="

  /** q is a text-search URL carrying the given key. */
  predicate IsTextSearch(q: string, key: string) {
    && |QueryPrefix| + |KeyParam| + |key| <= |q|
    && q[..|QueryPrefix|] == QueryPrefix
    && q[|q| - |KeyParam| - |key|..] == KeyParam + key
  }

  /** The text a text-search URL searches for. */
  function QueryText(q: string, key: string): string
    requires IsTextSearch(q, key)
  {
    q[|QueryPrefix|..|q| - |KeyParam| - |key|]
  }

  /** A query by text alone; the text is spliced in without URL encoding, and
      can be read back from the URL. */
  function TextQuery(text: string, key: string): (q: string)
    ensures IsTextSearch(q, key) && QueryText(q, key) == text
  {
    var q := QueryPrefix + text + KeyParam + key;
    assert q == QueryPrefix + (text + (KeyParam + key));
    assert q[|QueryPrefix|..] == text + (KeyParam + key);
    q
  }

  /** The coordinate query: the keyword searched near a point. */
  function NearbyQuery(keyword: string, lat: Degree, lng: Degree, key: string, show: Degree -> string): string {
    TextQuery(keyword + "&location=" + show(lat) + "," + show(lng), key)
  }

  /** The coordinate query searches for the keyword, with the point as the
      location parameter, latitude first. */
  lemma NearbyQueryText(keyword: string, lat: Degree, lng: Degree, key: string, show: Degree -> string)
    ensures var q := NearbyQuery(keyword, lat, lng, key, show);
      IsTextSearch(q, key) && QueryText(q, key) == keyword + "&location=" + show(lat) + "," + show(lng)
  {
  }

  /** An optional string as an f-string renders it: None becomes "None",
      which cannot be told apart from a city actually named "None". */
  function Rendered(s: Option<string>): (r: string)
    ensures s.Some? ==> r == s.value
    ensures r == "None" <==> s == None || s == Some("None")
  {
    if s.Some? then s.value else "None"
  }

  /** The query for one alternate locality: `keyword+locality+city`. */
  function LocalityQuery(keyword: string, locality: string, city: Option<string>, key: string): string {
    TextQuery(keyword + "+" + locality + "+" + Rendered(city), key)
  }

  /** A locality query searches for `keyword+locality+city`, the city as an
      f-string renders it. */
  lemma LocalityQueryText(keyword: string, locality: string, city: Option<string>, key: string)
    ensures var q := LocalityQuery(keyword, locality, city, key);
      IsTextSearch(q, key) && QueryText(q, key) == keyword + "+" + locality + "+" + Rendered(city)
  {
  }

  /** One locality query per locality, in order. */
  function LocalityQueries(keyword: string, locs: seq<string>, city: Option<string>, key: string): (qs: seq<string>)
    ensures |qs| == |locs|
    ensures forall k :: 0 <= k < |locs| ==> qs[k] == LocalityQuery(keyword, locs[k], city, key)
  {
    if locs == [] then []
    else LocalityQueries(keyword, locs[..|locs| - 1], city, key) + [LocalityQuery(keyword, locs[|locs| - 1], city, key)]
  }

  /** One more locality, one more query at the end. */
  lemma LocalityQueriesSnoc(keyword: string, locs: seq<string>, j: nat, city: Option<string>, key: string)
    requires j < |locs|
    ensures LocalityQueries(keyword, locs[..j + 1], city, key) ==
      LocalityQueries(keyword, locs[..j], city, key) + [LocalityQuery(keyword, locs[j], city, key)]
  {
    assert locs[..j + 1][..j] == locs[..j];
  }

  /** The queries a ZIP code with coordinates contributes: its coordinate
      query first, then one query per (filtered) locality. */
  function TokenQueries(g: Geocoded, keyword: string, key: string, show: Degree -> string): (qs: seq<string>)
    requires g.coordinates.Some?
    ensures |qs| == 1 + (if g.localities.Some? then |g.localities.value| else 0)
    ensures qs[0] == NearbyQuery(keyword, g.coordinates.value.0, g.coordinates.value.1, key, show)
    ensures g.localities.Some? ==>
      forall k :: 0 <= k < |g.localities.value| ==> qs[k + 1] == LocalityQuery(keyword, g.localities.value[k], g.cityName, key)
  {
    [NearbyQuery(keyword, g.coordinates.value.0, g.coordinates.value.1, key, show)]
    + (if g.localities.Some? then LocalityQueries(keyword, g.localities.value, g.cityName, key) else [])
  }

  /** The queries built so far and the ZIP codes reported as unresolvable. */
  datatype ZipBatch = ZipBatch(queries: seq<string>, unresolved: seq<string>)

  /** One turn of the ZIP loop: a token whose coordinates are missing is
      reported and contributes no query; any other token contributes its
      TokenQueries; a geocoding response that raises ends the submission. */
  function ZipStep(plan: Result<ZipBatch>, zip: string, geocodeApi: string -> Result<Geocoded>,
                   keyword: string, key: string, show: Degree -> string): (r: Result<ZipBatch>)
    ensures plan.Err? ==> r == plan
    ensures plan.Ok? && geocodeApi(zip).Err? ==> r == Err(geocodeApi(zip).error)
    ensures r.Ok? ==> plan.Ok? && geocodeApi(zip).Ok?
    ensures r.Ok? ==> plan.value.queries <= r.value.queries && plan.value.unresolved <= r.value.unresolved
    ensures r.Ok? ==> (r.value.unresolved == plan.value.unresolved + [zip] <==> geocodeApi(zip).value.coordinates.None?)
    ensures r.Ok? && geocodeApi(zip).value.coordinates.None? ==> r.value.queries == plan.value.queries
  {
    match plan
    case Err(e) => Err(e)
    case Ok(batch) =>
      match geocodeApi(zip)
      case Err(e) => Err(e)
      case Ok(g) =>
        if g.coordinates.None? then Ok(ZipBatch(batch.queries, batch.unresolved + [zip]))
        else Ok(ZipBatch(batch.queries + TokenQueries(g, keyword, key, show), batch.unresolved))
  }

  /** What the ZIP loop has built after the given tokens. */
  function ZipPlan(tokens: seq<string>, geocodeApi: string -> Result<Geocoded>,
                   keyword: string, key: string, show: Degree -> string): Result<ZipBatch>
  {
    if tokens == [] then Ok(ZipBatch([], []))
    else ZipStep(ZipPlan(tokens[..|tokens| - 1], geocodeApi, keyword, key, show), tokens[|tokens| - 1],
                 geocodeApi, keyword, key, show)
  }

  /** The tokens whose geocoding succeeds without coordinates, in order. */
  function Unresolvable(tokens: seq<string>, geocodeApi: string -> Result<Geocoded>): seq<string> {
    if tokens == [] then []
    else
      var zip := tokens[|tokens| - 1];
      Unresolvable(tokens[..|tokens| - 1], geocodeApi)
      + (if geocodeApi(zip).Ok? && geocodeApi(zip).value.coordinates.None? then [zip] else [])
  }

  /** When no geocoding raises, the reported codes are exactly the codes that
      have no coordinates, in input order. */
  lemma {:induction false} ZipPlanReports(tokens: seq<string>, geocodeApi: string -> Result<Geocoded>,
                                          keyword: string, key: string, show: Degree -> string)
    ensures var r := ZipPlan(tokens, geocodeApi, keyword, key, show);
      r.Ok? ==> r.value.unresolved == Unresolvable(tokens, geocodeApi)
  {
    if tokens != [] {
      ZipPlanReports(tokens[..|tokens| - 1], geocodeApi, keyword, key, show);
    }
  }

  /** The plan for one more token is one more step. */
  lemma ZipPlanSnoc(tokens: seq<string>, i: nat, geocodeApi: string -> Result<Geocoded>,
                    keyword: string, key: string, show: Degree -> string)
    requires i < |tokens|
    ensures ZipPlan(tokens[..i + 1], geocodeApi, keyword, key, show) ==
      ZipStep(ZipPlan(tokens[..i], geocodeApi, keyword, key, show), tokens[i], geocodeApi, keyword, key, show)
  {
    assert tokens[..i + 1][..i] == tokens[..i];
  }

  /** One token alone: nothing but a report when it has no coordinates,
      otherwise exactly its coordinate query and its locality queries. */
  lemma ZipPlanSingle(zip: string, geocodeApi: string -> Result<Geocoded>,
                      keyword: string, key: string, show: Degree -> string)
    ensures var parsed := geocodeApi(zip);
      ZipPlan([zip], geocodeApi, keyword, key, show) ==
        if parsed.Err? then Err(parsed.error)
        else if parsed.value.coordinates.None? then Ok(ZipBatch([], [zip]))
        else Ok(ZipBatch(TokenQueries(parsed.value, keyword, key, show), []))
  {
    assert [zip][..0] == [];
    var parsed := geocodeApi(zip);
    if parsed.Ok? && parsed.value.coordinates.Some? {
      assert [] + TokenQueries(parsed.value, keyword, key, show) == TokenQueries(parsed.value, keyword, key, show);
    }
    if parsed.Ok? && parsed.value.coordinates.None? {
      assert [] + [zip] == [zip];
    }
  }

  /** Once a geocoding response has raised, later tokens change nothing. */
  lemma {:induction false} ZipPlanErrSticky(tokens: seq<string>, n: nat, geocodeApi: string -> Result<Geocoded>,
                                           keyword: string, key: string, show: Degree -> string)
    requires n <= |tokens|
    requires ZipPlan(tokens[..n], geocodeApi, keyword, key, show).Err?
    ensures ZipPlan(tokens, geocodeApi, keyword, key, show) == ZipPlan(tokens[..n], geocodeApi, keyword, key, show)
    decreases |tokens|
  {
    if n < |tokens| {
      var init := tokens[..|tokens| - 1];
      assert init[..n] == tokens[..n];
      ZipPlanErrSticky(init, n, geocodeApi, keyword, key, show);
    } else {
      assert tokens[..n] == tokens;
    }
  }

  /** The outcome of two runs of the ZIP loop one after the other: the
      first raise wins, otherwise queries and reports are concatenated. */
  function Chain(first: Result<ZipBatch>, second: Result<ZipBatch>): Result<ZipBatch> {
    if first.Err? then first
    else if second.Err? then second
    else Ok(ZipBatch(first.value.queries + second.value.queries, first.value.unresolved + second.value.unresolved))
  }

  /** A step after a chain is a step of the second run. */
  lemma ChainStep(first: Result<ZipBatch>, second: Result<ZipBatch>, zip: string,
                  geocodeApi: string -> Result<Geocoded>, keyword: string, key: string, show: Degree -> string)
    ensures ZipStep(Chain(first, second), zip, geocodeApi, keyword, key, show) ==
      Chain(first, ZipStep(second, zip, geocodeApi, keyword, key, show))
  {
    if first.Ok? && second.Ok? {
      var parsed := geocodeApi(zip);
      var f := first.value;
      var s := second.value;
      if parsed.Ok? && parsed.value.coordinates.Some? {
        var tq := TokenQueries(parsed.value, keyword, key, show);
        assert (f.queries + s.queries) + tq == f.queries + (s.queries + tq);
      } else if parsed.Ok? {
        assert (f.unresolved + s.unresolved) + [zip] == f.unresolved + (s.unresolved + [zip]);
      }
    }
  }

  /** Tokens contribute independently and in order: the plan for a + b is
      the plan for a followed by the plan for b, and the first raise wins. */
  lemma {:induction false} ZipPlanConcat(a: seq<string>, b: seq<string>, geocodeApi: string -> Result<Geocoded>,
                                        keyword: string, key: string, show: Degree -> string)
    ensures ZipPlan(a + b, geocodeApi, keyword, key, show) ==
      Chain(ZipPlan(a, geocodeApi, keyword, key, show), ZipPlan(b, geocodeApi, keyword, key, show))
    decreases |b|
  {
    var pa := ZipPlan(a, geocodeApi, keyword, key, show);
    if b == [] {
      assert a + b == a;
      if pa.Ok? {
        assert pa.value.queries + [] == pa.value.queries;
        assert pa.value.unresolved + [] == pa.value.unresolved;
      }
    } else {
      var b' := b[..|b| - 1];
      var zip := b[|b| - 1];
      ZipPlanConcat(a, b', geocodeApi, keyword, key, show);
      assert ZipPlan(a + b, geocodeApi, keyword, key, show) ==
        ZipStep(ZipPlan(a + b', geocodeApi, keyword, key, show), zip, geocodeApi, keyword, key, show) by {
        assert (a + b)[..|a + b| - 1] == a + b';
        assert (a + b)[|a + b| - 1] == zip;
      }
      ChainStep(pa, ZipPlan(b', geocodeApi, keyword, key, show), zip, geocodeApi, keyword, key, show);
    }
  }

  /** The ZIP loop: geocodes every token in order, reports those without
      coordinates, and appends the queries of the others. `calls` lists the
      codes geocoded, in order: all of them, or up to the first one whose response
      raised. */
  method BuildZipQueries(tokens: seq<string>, geocodeApi: string -> Result<Geocoded>,
                         keyword: string, key: string, show: Degree -> string)
    returns (r: Result<ZipBatch>, calls: seq<string>)
    ensures r == ZipPlan(tokens, geocodeApi, keyword, key, show)
    ensures calls <= tokens
    ensures r.Ok? ==> calls == tokens
    ensures r.Err? ==> calls != [] && geocodeApi(calls[|calls| - 1]) == Err(r.error)
    ensures r.Err? ==> ZipPlan(calls[..|calls| - 1], geocodeApi, keyword, key, show).Ok?
  {
    var queries: seq<string> := [];
    var unresolved: seq<string> := [];
    calls := [];
    var i := 0;
    while i < |tokens|
      invariant 0 <= i <= |tokens|
      invariant calls == tokens[..i]
      invariant ZipPlan(tokens[..i], geocodeApi, keyword, key, show) == Ok(ZipBatch(queries, unresolved))
    {
      var zip := tokens[i];
      ghost var batch := ZipBatch(queries, unresolved);
      calls := calls + [zip];
      var parsed := geocodeApi(zip);
      if parsed.Err? {
        r := Err(parsed.error);
        assert r == ZipPlan(tokens, geocodeApi, keyword, key, show) by {
          ZipPlanSnoc(tokens, i, geocodeApi, keyword, key, show);
          ZipPlanErrSticky(tokens, i + 1, geocodeApi, keyword, key, show);
        }
        assert calls == tokens[..i + 1] by {
          TakeSnoc(tokens, i);
        }
        assert calls[..|calls| - 1] == tokens[..i];
        return;
      }
      var g := parsed.value;
      if g.coordinates.None? {
        unresolved := unresolved + [zip];
      } else {
        queries := AppendTokenQueries(queries, g, keyword, key, show);
      }
      assert ZipStep(Ok(batch), zip, geocodeApi, keyword, key, show) == Ok(ZipBatch(queries, unresolved));
      ZipPlanSnoc(tokens, i, geocodeApi, keyword, key, show);
      TakeSnoc(tokens, i);
      i := i + 1;
    }
    assert tokens[..i] == tokens;
    r := Ok(ZipBatch(queries, unresolved));
  }

  /** The queries of one ZIP code with coordinates, appended to the queries
      built so far: the coordinate query, then the locality queries. */
  method AppendTokenQueries(queries: seq<string>, g: Geocoded, keyword: string, key: string, show: Degree -> string)
    returns (extended: seq<string>)
    requires g.coordinates.Some?
    ensures extended == queries + TokenQueries(g, keyword, key, show)
  {
    var (lat, lng) := g.coordinates.value;
    var near := [NearbyQuery(keyword, lat, lng, key, show)];
    extended := queries + near;
    if g.localities.Some? {
      extended := AppendLocalityQueries(extended, keyword, g.localities.value, g.cityName, key);
      assert extended == queries + (near + LocalityQueries(keyword, g.localities.value, g.cityName, key));
    } else {
      assert extended == queries + (near + []);
    }
  }

  /** The inner loop of the ZIP loop: one query per locality appended to
      the queries built so far. */
  method AppendLocalityQueries(queries: seq<string>, keyword: string, locs: seq<string>,
                               city: Option<string>, key: string)
    returns (extended: seq<string>)
    ensures extended == queries + LocalityQueries(keyword, locs, city, key)
  {
    extended := queries;
    var j := 0;
    while j < |locs|
      invariant 0 <= j <= |locs|
      invariant extended == queries + LocalityQueries(keyword, locs[..j], city, key)
    {
      var q := LocalityQuery(keyword, locs[j], city, key);
      LocalityQueriesSnoc(keyword, locs, j, city, key);
      assert extended + [q] == queries + (LocalityQueries(keyword, locs[..j], city, key) + [q]);
      extended := extended + [q];
      j := j + 1;
    }
    assert locs[..j] == locs;
  }

  /** `f'{keyword}+{"+".join(area.split())}'`: the area's words joined by '+'. */
  function AreaText(keyword: string, area: string): (text: string)
    ensures |keyword| + 1 <= |text| && text[..|keyword| + 1] == keyword + "+"
    ensures Blank(area) ==> text == keyword + "+"
  {
    SplitEmptyIffBlank(area);
    keyword + "+" + Join("+", Split(area))
  }

  /** The single Area-mode query. */
  function AreaQuery(keyword: string, area: string, key: string): string {
    TextQuery(AreaText(keyword, area), key)
  }

  /** The area query searches for the area text. */
  lemma AreaQueryText(keyword: string, area: string, key: string)
    ensures var q := AreaQuery(keyword, area, key);
      IsTextSearch(q, key) && QueryText(q, key) == AreaText(keyword, area)
  {
  }

  /** The area part of the query holds no whitespace, and when no word holds
      a '+' it splits back on '+' into the area's words. */
  lemma AreaTextWords(keyword: string, area: string)
    ensures var text := AreaText(keyword, area);
      && text[..|keyword| + 1] == keyword + "+"
      && NoSpace(text[|keyword| + 1..])
      && (Split(area) != [] && (forall k :: 0 <= k < |Split(area)| ==> '+' !in Split(area)[k]) ==>
            SplitOn('+', text[|keyword| + 1..]) == Split(area))
  {
    var words := Split(area);
    var text := AreaText(keyword, area);
    assert text[|keyword| + 1..] == Join("+", words);
    JoinNoSpace("+", words);
    if words != [] && forall k :: 0 <= k < |words| ==> '+' !in words[k] {
      SplitOnJoin('+', words);
    }
  }

  /** What one submission ends in. */
  datatype Outcome =
    | InputConflict
    | Searched(queries: seq<string>, unresolved: seq<string>, table: Result<seq<TableRow>>)
    | Crashed(error: Exception)

  /** The services called during one submission, in call order. */
  datatype Calls = Calls(geocoded: seq<string>, searched: seq<string>, detailed: seq<PlaceId>)

  /** `geocode_api`: one geocoding call, then parsing of its response. */
  function GeocodeApi(geocode: string -> GeocodeResponse): string -> Result<Geocoded> {
    zip => ParseGeocode(geocode(zip))
  }

  /** The table the aggregation produces for a list of queries. */
  function TableFor(queries: seq<string>, search: string -> SearchResponse,
                    lookup: PlaceId -> DetailsResponse): Result<seq<TableRow>>
  {
    DropIdColumn(Collect(AllResults(queries, search), lookup))
  }

  /** What ZIP mode ends in. When a geocoding response raises, the
      submission crashes before any search, after geocoding the codes up to
      and including the first one that raised. Otherwise every code is geocoded,
      exactly the planned queries are searched, the planned reports are
      shown, and details are requested once per distinct place. */
  ghost predicate ZipOutcome(tokens: seq<string>, keyword: string, key: string,
                             geocode: string -> GeocodeResponse, search: string -> SearchResponse,
                             lookup: PlaceId -> DetailsResponse, show: Degree -> string,
                             outcome: Outcome, calls: Calls)
  {
    var plan := ZipPlan(tokens, GeocodeApi(geocode), keyword, key, show);
    && (plan.Err? ==>
          && outcome == Crashed(plan.error) && calls.searched == [] && calls.detailed == []
          && calls.geocoded <= tokens && calls.geocoded != []
          && GeocodeApi(geocode)(calls.geocoded[|calls.geocoded| - 1]) == Err(plan.error)
          && ZipPlan(calls.geocoded[..|calls.geocoded| - 1], GeocodeApi(geocode), keyword, key, show).Ok?)
    && (plan.Ok? ==>
          && outcome == Searched(plan.value.queries, plan.value.unresolved, TableFor(plan.value.queries, search, lookup))
          && calls.geocoded == tokens
          && calls.searched == plan.value.queries
          && calls.detailed == RowIds(Collect(AllResults(plan.value.queries, search), lookup)))
  }

  /** ZIP mode of the submit branch: the ZIP loop over the codes, then the
      aggregation over its queries, even when there are none. A geocoding
      response that raises ends the submission before any search, after the
      codes up to and including the first one that raised were geocoded. */
  method SubmitZip(tokens: seq<string>, keyword: string, key: string,
                   geocode: string -> GeocodeResponse, search: string -> SearchResponse,
                   lookup: PlaceId -> DetailsResponse, show: Degree -> string)
    returns (outcome: Outcome, calls: Calls)
    ensures ZipOutcome(tokens, keyword, key, geocode, search, lookup, show, outcome, calls)
  {
    var plan, geocoded := BuildZipQueries(tokens, GeocodeApi(geocode), keyword, key, show);
    if plan.Err? {
      outcome, calls := Crashed(plan.error), Calls(geocoded, [], []);
    } else {
      var rows, searched, detailed := GetPlaces(plan.value.queries, search, lookup);
      outcome := Searched(plan.value.queries, plan.value.unresolved, DropIdColumn(rows));
      calls := Calls(geocoded, searched, detailed);
    }
  }

  /** The submit branch. Both fields given: a conflict and no service call.
      ZIP only: ZIP mode over the whitespace-separated codes. Otherwise (Area
      only, or neither): exactly one area query. */
  method SubmitForm(zipInput: string, areaInput: string, keyword: string, key: string,
                    geocode: string -> GeocodeResponse, search: string -> SearchResponse,
                    lookup: PlaceId -> DetailsResponse, show: Degree -> string)
    returns (outcome: Outcome, calls: Calls)
    ensures outcome.InputConflict? <==> Strip(zipInput) != [] && Strip(areaInput) != []
    ensures outcome.InputConflict? ==> calls == Calls([], [], [])
    ensures Strip(zipInput) == [] ==>
      var q := AreaQuery(keyword, Strip(areaInput), key);
      && outcome == Searched([q], [], TableFor([q], search, lookup))
      && calls.geocoded == [] && calls.searched == [q]
    ensures Strip(zipInput) != [] && Strip(areaInput) == [] ==>
      ZipOutcome(Split(Strip(zipInput)), keyword, key, geocode, search, lookup, show, outcome, calls)
    ensures outcome.Searched? ==> calls.detailed == RowIds(Collect(AllResults(outcome.queries, search), lookup))
  {
    var zip := Strip(zipInput);
    var area := Strip(areaInput);
    if zip != [] && area != [] {
      outcome, calls := InputConflict, Calls([], [], []);
    } else if zip != [] {
      outcome, calls := SubmitZip(Split(zip), keyword, key, geocode, search, lookup, show);
    } else {
      var q := AreaQuery(keyword, area, key);
      var rows, searched, detailed := GetPlaces([q], search, lookup);
      outcome := Searched([q], [], DropIdColumn(rows));
      calls := Calls([], searched, detailed);
    }
  }

  /** A ZIP code whose only alternate locality names its city contributes
      just the coordinate query. */
  lemma CityLocalityFilteredOut(zip: string, city: string, loc: string, i: nat, lat: Degree, lng: Degree,
                                geocode: string -> GeocodeResponse, keyword: string, key: string, show: Degree -> string)
    requires city != [] && lat != 0 && lng != 0
    requires i + |city| <= |loc| && loc[i..i + |city|] == city
    requires geocode(zip) == OneLocalityResponse(city, loc, lat, lng)
    ensures ZipPlan([zip], GeocodeApi(geocode), keyword, key, show) ==
      Ok(ZipBatch([NearbyQuery(keyword, lat, lng, key, show)], []))
  {
    CityLocalityDropped(city, loc, i, lat, lng);
    var g := Geocoded(Some([]), Some((lat, lng)), Some(city));
    assert GeocodeApi(geocode)(zip) == Ok(g);
    ZipPlanSingle(zip, GeocodeApi(geocode), keyword, key, show);
    assert TokenQueries(g, keyword, key, show) == [NearbyQuery(keyword, lat, lng, key, show)];
  }
}
