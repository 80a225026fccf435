/** Aggregation of text-search results into the result table
    (`get_places_df`): every query is fetched in order, results are
    de-duplicated by place id with the first occurrence winning, and each
    kept place is enriched with its details, fetched once. */
module Places {
  import opened Wrappers
  import opened Details

  /** `place.get('place_id')`: None when the key is absent. */
  type PlaceId = Option<string>

  /** A rating or a rating count as the service reports it. */
  type Number = int

  /** An entry of `results` of a text-search response. */
  datatype Place = Place(
    placeId: PlaceId,
    name: Option<string>,
    rating: Option<Number>,
    userRatingsTotal: Option<Number>,
    formattedAddress: Option<string>)

  /** The decoded JSON body of a text-search call. */
  datatype SearchResponse = SearchResponse(results: Option<seq<Place>>)

  /** A rating column: the number, or the placeholder "-" when absent. */
  datatype Cell = Value(n: Number) | Dash

  /** One accumulated record, with its `place_id` still attached. */
  datatype Row = Row(
    place: string,
    ratings: Cell,
    totalRatings: Cell,
    address: string,
    phoneNumber: string,
    openingHours: string,
    url: string,
    placeId: PlaceId)

  /** One row of the final table: the record without its `place_id`. */
  datatype TableRow = TableRow(
    place: string,
    ratings: Cell,
    totalRatings: Cell,
    address: string,
    phoneNumber: string,
    openingHours: string,
    url: string)

  /** `r.json().get('results', [])`. */
  function ResultsOf(resp: SearchResponse): seq<Place> {
    if resp.results.Some? then resp.results.value else []
  }

  /** The results of all queries, query after query, each in the order the
      service returned them. */
  function AllResults(queries: seq<string>, search: string -> SearchResponse): seq<Place>
  {
    if queries == [] then []
    else AllResults(queries[..|queries| - 1], search) + ResultsOf(search(queries[|queries| - 1]))
  }

  /** The dictionary appended for a new place. */
  function MakeRow(p: Place, d: PlaceDetails): Row {
    Row(
      if p.name.Some? then p.name.value else "",
      if p.rating.Some? then Value(p.rating.value) else Dash,
      if p.userRatingsTotal.Some? then Value(p.userRatingsTotal.value) else Dash,
      if p.formattedAddress.Some? then p.formattedAddress.value else "",
      d.phoneNumber,
      d.openingHours,
      d.url,
      p.placeId)
  }

  /** A record carries the place's id and details; a missing name or address
      shows as empty text, and a missing rating or rating count as "-". */
  lemma MakeRowFields(p: Place, d: PlaceDetails)
    ensures var row := MakeRow(p, d);
      && row.placeId == p.placeId
      && (p.name.None? ==> row.place == "")
      && (p.name.Some? ==> row.place == p.name.value)
      && (row.ratings == Dash <==> p.rating.None?)
      && (p.rating.Some? ==> row.ratings == Value(p.rating.value))
      && (row.totalRatings == Dash <==> p.userRatingsTotal.None?)
      && (p.userRatingsTotal.Some? ==> row.totalRatings == Value(p.userRatingsTotal.value))
      && (p.formattedAddress.None? ==> row.address == "")
      && (p.formattedAddress.Some? ==> row.address == p.formattedAddress.value)
      && row.phoneNumber == d.phoneNumber && row.openingHours == d.openingHours && row.url == d.url
  {
  }

  /** `[p['place_id'] for p in all_places]`. */
  function RowIds(rows: seq<Row>): (ids: seq<PlaceId>)
    ensures |ids| == |rows| && forall i :: 0 <= i < |rows| ==> ids[i] == rows[i].placeId
  {
    seq(|rows|, i requires 0 <= i < |rows| => rows[i].placeId)
  }

  /** The ids of a list of search results, in order. */
  function PlaceIds(places: seq<Place>): (ids: seq<PlaceId>)
    ensures |ids| == |places| && forall i :: 0 <= i < |places| ==> ids[i] == places[i].placeId
  {
    seq(|places|, i requires 0 <= i < |places| => places[i].placeId)
  }

  /** One place scanned: its record is appended, with the details looked up
      for its id, unless a record with its id is already there. */
  function Step(rows: seq<Row>, p: Place, lookup: PlaceId -> DetailsResponse): seq<Row> {
    if p.placeId in RowIds(rows) then rows else rows + [MakeRow(p, ExtractDetails(lookup(p.placeId)))]
  }

  /** A step never touches the records already there, adds at most one, and
      leaves the place's id recorded; it adds one exactly when the id was
      new, and that record is the place's, with its details. */
  lemma StepRecordsId(rows: seq<Row>, p: Place, lookup: PlaceId -> DetailsResponse)
    ensures var r := Step(rows, p, lookup);
      && |rows| <= |r| <= |rows| + 1 && r[..|rows|] == rows
      && p.placeId in RowIds(r)
      && (|r| == |rows| + 1 <==> p.placeId !in RowIds(rows))
      && (|r| == |rows| + 1 ==> r[|rows|] == MakeRow(p, ExtractDetails(lookup(p.placeId))))
  {
    var r := Step(rows, p, lookup);
    if p.placeId !in RowIds(rows) {
      assert RowIds(r)[|rows|] == p.placeId;
    }
  }

  /** The records accumulated after scanning `places` in order from no
      records. */
  function Collect(places: seq<Place>, lookup: PlaceId -> DetailsResponse): seq<Row>
  {
    if places == [] then []
    else Step(Collect(places[..|places| - 1], lookup), places[|places| - 1], lookup)
  }

  /** The records have pairwise distinct ids, so there are at most as many
      records as scanned places. */
  lemma {:induction false} CollectIdsDistinct(places: seq<Place>, lookup: PlaceId -> DetailsResponse)
    ensures var rows := Collect(places, lookup);
      && |rows| <= |places|
      && forall i, j :: 0 <= i < j < |rows| ==> rows[i].placeId != rows[j].placeId
    decreases |places|
  {
    if places != [] {
      var init := places[..|places| - 1];
      var p := places[|places| - 1];
      CollectIdsDistinct(init, lookup);
      var prev := Collect(init, lookup);
      if p.placeId !in RowIds(prev) {
        var rows := Collect(places, lookup);
        forall i, j | 0 <= i < j < |rows| ensures rows[i].placeId != rows[j].placeId {
          assert rows[i] == prev[i];
          if j < |prev| {
            assert rows[j] == prev[j];
          } else {
            assert prev[i].placeId in RowIds(prev);
          }
        }
      }
    }
  }

  /** Index of the first occurrence of id. */
  function FirstIndex(ids: seq<PlaceId>, id: PlaceId): (k: nat)
    requires id in ids
    ensures k < |ids| && ids[k] == id
    ensures forall j :: 0 <= j < k ==> ids[j] != id
  {
    if ids[0] == id then 0 else 1 + FirstIndex(ids[1..], id)
  }

  /** Appending an element does not move an existing first occurrence, and
      a new id first occurs at the end. */
  lemma FirstIndexAppend(ids: seq<PlaceId>, x: PlaceId, id: PlaceId)
    requires id in ids + [x]
    ensures id in ids ==> FirstIndex(ids + [x], id) == FirstIndex(ids, id)
    ensures id !in ids ==> FirstIndex(ids + [x], id) == |ids|
  {
    var k := FirstIndex(ids + [x], id);
    if id in ids {
      var k' := FirstIndex(ids, id);
      assert (ids + [x])[k'] == id;
    } else {
      assert forall j :: 0 <= j < |ids| ==> (ids + [x])[j] == ids[j];
    }
  }

  /** Scanning one more place appends its record unless its id is taken. */
  lemma CollectSnoc(places: seq<Place>, p: Place, lookup: PlaceId -> DetailsResponse)
    ensures var prev := Collect(places, lookup);
      Collect(places + [p], lookup) ==
        if p.placeId in RowIds(prev) then prev else prev + [MakeRow(p, ExtractDetails(lookup(p.placeId)))]
  {
    assert (places + [p])[..|places|] == places;
  }

  /** The records carry exactly the ids of the scanned places: no place is
      lost and no id is invented. */
  lemma {:induction false} CollectCoversIds(places: seq<Place>, lookup: PlaceId -> DetailsResponse)
    ensures forall id :: id in RowIds(Collect(places, lookup)) <==> id in PlaceIds(places)
    decreases |places|
  {
    if places != [] {
      var init := places[..|places| - 1];
      var p := places[|places| - 1];
      CollectCoversIds(init, lookup);
      assert places == init + [p];
      CollectSnoc(init, p, lookup);
      assert PlaceIds(places) == PlaceIds(init) + [p.placeId];
      var prev := Collect(init, lookup);
      if p.placeId !in RowIds(prev) {
        assert RowIds(Collect(places, lookup)) == RowIds(prev) + [p.placeId];
      }
    }
  }

  /** Every record is built from the first scanned place with its id, with
      the details looked up for that id. */
  ghost predicate FromFirstOccurrences(rows: seq<Row>, places: seq<Place>, lookup: PlaceId -> DetailsResponse) {
    forall i :: 0 <= i < |rows| ==>
      && rows[i].placeId in PlaceIds(places)
      && rows[i] == MakeRow(places[FirstIndex(PlaceIds(places), rows[i].placeId)],
                            ExtractDetails(lookup(rows[i].placeId)))
  }

  /** Records appear in the order in which their ids first occur. */
  ghost predicate InFirstSeenOrder(rows: seq<Row>, ids: seq<PlaceId>) {
    && (forall i :: 0 <= i < |rows| ==> rows[i].placeId in ids)
    && (forall i, j :: 0 <= i < j < |rows| ==> FirstIndex(ids, rows[i].placeId) < FirstIndex(ids, rows[j].placeId))
  }

  /** The first occurrence wins: each record is built from the first scanned
      place with its id. */
  lemma {:induction false} CollectKeepsFirst(places: seq<Place>, lookup: PlaceId -> DetailsResponse)
    ensures FromFirstOccurrences(Collect(places, lookup), places, lookup)
    decreases |places|
  {
    if places != [] {
      var init := places[..|places| - 1];
      var p := places[|places| - 1];
      CollectKeepsFirst(init, lookup);
      CollectCoversIds(init, lookup);
      assert places == init + [p];
      CollectSnoc(init, p, lookup);
      var prev := Collect(init, lookup);
      var rows := Collect(places, lookup);
      var ids := PlaceIds(places);
      assert ids == PlaceIds(init) + [p.placeId];
      forall i | 0 <= i < |rows|
        ensures rows[i].placeId in ids
        ensures rows[i] == MakeRow(places[FirstIndex(ids, rows[i].placeId)], ExtractDetails(lookup(rows[i].placeId)))
      {
        if i < |prev| {
          assert rows[i] == prev[i];
          var id := prev[i].placeId;
          assert id in PlaceIds(init);
          FirstIndexAppend(PlaceIds(init), p.placeId, id);
          assert places[FirstIndex(ids, id)] == init[FirstIndex(PlaceIds(init), id)];
        } else {
          FirstIndexAppend(PlaceIds(init), p.placeId, p.placeId);
        }
      }
    }
  }

  /** Another scanned id does not disturb the order of existing records. */
  lemma OrderAppendId(rows: seq<Row>, ids: seq<PlaceId>, x: PlaceId)
    requires InFirstSeenOrder(rows, ids)
    ensures InFirstSeenOrder(rows, ids + [x])
  {
    forall i | 0 <= i < |rows|
      ensures rows[i].placeId in ids + [x]
      ensures FirstIndex(ids + [x], rows[i].placeId) == FirstIndex(ids, rows[i].placeId)
    {
      FirstIndexAppend(ids, x, rows[i].placeId);
    }
  }

  /** A record for a new id goes after every existing record. */
  lemma OrderAppendRow(rows: seq<Row>, ids: seq<PlaceId>, row: Row)
    requires InFirstSeenOrder(rows, ids + [row.placeId])
    requires forall i :: 0 <= i < |rows| ==> rows[i].placeId in ids
    requires row.placeId !in ids
    ensures InFirstSeenOrder(rows + [row], ids + [row.placeId])
  {
    var all := ids + [row.placeId];
    var longer := rows + [row];
    FirstIndexAppend(ids, row.placeId, row.placeId);
    forall i | 0 <= i < |rows|
      ensures FirstIndex(all, rows[i].placeId) < |ids|
    {
      FirstIndexAppend(ids, row.placeId, rows[i].placeId);
    }
    assert forall i :: 0 <= i < |rows| ==> longer[i] == rows[i];
    assert longer[|rows|] == row;
  }

  /** Records appear in the order in which their ids first occur among the
      scanned places: query order first, then order within a query. */
  lemma {:induction false} CollectFirstSeenOrder(places: seq<Place>, lookup: PlaceId -> DetailsResponse)
    ensures InFirstSeenOrder(Collect(places, lookup), PlaceIds(places))
    decreases |places|
  {
    if places != [] {
      var init := places[..|places| - 1];
      var p := places[|places| - 1];
      var prev := Collect(init, lookup);
      var initIds := PlaceIds(init);
      CollectFirstSeenOrder(init, lookup);
      assert PlaceIds(places) == initIds + [p.placeId] by {
        assert places == init + [p];
      }
      OrderAppendId(prev, initIds, p.placeId);
      if p.placeId !in RowIds(prev) {
        CollectCoversIds(init, lookup);
        forall i | 0 <= i < |prev|
          ensures prev[i].placeId in initIds
        {
          assert prev[i].placeId in RowIds(prev);
        }
        OrderAppendRow(prev, initIds, MakeRow(p, ExtractDetails(lookup(p.placeId))));
      }
    }
  }

  /** One more element of a prefix. */
  lemma TakeSnoc<T>(s: seq<T>, k: nat)
    requires k < |s|
    ensures s[..k + 1] == s[..k] + [s[k]]
  {
  }

  /** The records after scanning `places` in order, starting from `rows`. */
  function Scan(rows: seq<Row>, places: seq<Place>, lookup: PlaceId -> DetailsResponse): seq<Row>
  {
    if places == [] then rows
    else Step(Scan(rows, places[..|places| - 1], lookup), places[|places| - 1], lookup)
  }

  /** Scanning one more place is one more step. */
  lemma ScanSnoc(rows: seq<Row>, places: seq<Place>, k: nat, lookup: PlaceId -> DetailsResponse)
    requires k < |places|
    ensures Scan(rows, places[..k + 1], lookup) == Step(Scan(rows, places[..k], lookup), places[k], lookup)
  {
    assert places[..k + 1][..k] == places[..k];
  }

  /** Scanning the places of a later query continues from the records of
      the earlier ones. */
  lemma {:induction false} CollectAppend(s: seq<Place>, r: seq<Place>, lookup: PlaceId -> DetailsResponse)
    ensures Collect(s + r, lookup) == Scan(Collect(s, lookup), r, lookup)
    decreases |r|
  {
    if r == [] {
      assert s + r == s;
    } else {
      var r' := r[..|r| - 1];
      CollectAppend(s, r', lookup);
      assert (s + r)[..|s + r| - 1] == s + r';
      assert (s + r)[|s + r| - 1] == r[|r| - 1];
    }
  }

  /** Fetching one more query appends its results. */
  lemma AllResultsSnoc(queries: seq<string>, q: nat, search: string -> SearchResponse)
    requires q < |queries|
    ensures AllResults(queries[..q + 1], search) == AllResults(queries[..q], search) + ResultsOf(search(queries[q]))
  {
    assert queries[..q + 1][..q] == queries[..q];
  }

  /** One more record, one more id. */
  lemma RowIdsSnoc(rows: seq<Row>, row: Row)
    ensures RowIds(rows + [row]) == RowIds(rows) + [row.placeId]
  {
    assert RowIds(rows + [row])[|rows|] == row.placeId;
  }

  /** `place_id in [p['place_id'] for p in all_places]`, as a scan of the
      records accumulated so far. */
  method Listed(rows: seq<Row>, id: PlaceId) returns (found: bool)
    ensures found <==> id in RowIds(rows)
  {
    found := false;
    var i := 0;
    while i < |rows| && !found
      invariant 0 <= i <= |rows|
      invariant found <==> exists j :: 0 <= j < i && rows[j].placeId == id
    {
      found := rows[i].placeId == id;
      i := i + 1;
    }
    assert id in RowIds(rows) <==> exists j :: 0 <= j < |rows| && rows[j].placeId == id;
  }

  /** The inner loop of `get_places_df`: the results of one query scanned in
      order, each new id appended with its details and recorded as fetched. */
  method ScanResults(results: seq<Place>, rows0: seq<Row>, fetched0: seq<PlaceId>, lookup: PlaceId -> DetailsResponse)
    returns (rows: seq<Row>, fetched: seq<PlaceId>)
    requires fetched0 == RowIds(rows0)
    ensures rows == Scan(rows0, results, lookup)
    ensures fetched == RowIds(rows)
  {
    rows, fetched := rows0, fetched0;
    var k := 0;
    while k < |results|
      invariant 0 <= k <= |results|
      invariant rows == Scan(rows0, results[..k], lookup)
      invariant fetched == RowIds(rows)
    {
      var place := results[k];
      ScanSnoc(rows0, results, k, lookup);
      var listed := Listed(rows, place.placeId);
      if !listed {
        var details := ExtractDetails(lookup(place.placeId));
        RowIdsSnoc(rows, MakeRow(place, details));
        rows := rows + [MakeRow(place, details)];
        fetched := fetched + [place.placeId];
      }
      k := k + 1;
    }
    assert results[..k] == results;
  }

  /** `get_places_df` up to the table: fetches every query in order and
      keeps the first record per place id. `fetched` lists the ids whose
      details were requested, in request order: one request per record. */
  method GetPlaces(queries: seq<string>, search: string -> SearchResponse, lookup: PlaceId -> DetailsResponse)
    returns (rows: seq<Row>, searched: seq<string>, fetched: seq<PlaceId>)
    ensures rows == Collect(AllResults(queries, search), lookup)
    ensures searched == queries
    ensures fetched == RowIds(rows)
  {
    rows, searched, fetched := [], [], [];
    var q := 0;
    while q < |queries|
      invariant 0 <= q <= |queries|
      invariant rows == Collect(AllResults(queries[..q], search), lookup)
      invariant searched == queries[..q]
      invariant fetched == RowIds(rows)
    {
      var results := ResultsOf(search(queries[q]));
      searched := searched + [queries[q]];
      TakeSnoc(queries, q);
      rows, fetched := ScanResults(results, rows, fetched, lookup);
      AllResultsSnoc(queries, q, search);
      CollectAppend(AllResults(queries[..q], search), results, lookup);
      q := q + 1;
    }
    assert queries[..q] == queries;
  }

  /** The record without its `place_id` column. */
  function Display(row: Row): TableRow {
    TableRow(row.place, row.ratings, row.totalRatings, row.address, row.phoneNumber, row.openingHours, row.url)
  }

  /** `pd.DataFrame(all_places).drop(columns=['place_id'])`: the records
      without their ids; a frame built from no records has no `place_id`
      column, so dropping it raises a KeyError. */
  function DropIdColumn(rows: seq<Row>): (r: Result<seq<TableRow>>)
    ensures r.Err? <==> rows == []
    ensures r.Err? ==> r.error == KeyError("place_id")
    ensures r.Ok? ==> |r.value| == |rows| && forall i :: 0 <= i < |rows| ==> r.value[i] == Display(rows[i])
  {
    if rows == [] then Err(KeyError("place_id"))
    else Ok(seq(|rows|, i requires 0 <= i < |rows| => Display(rows[i])))
  }

  /** Scanning [a, b, b', c], where b' has b's id, keeps a, b and c in that
      order, and b keeps its first occurrence. */
  lemma DuplicateKeptOnce(a: Place, b: Place, b': Place, c: Place, lookup: PlaceId -> DetailsResponse)
    requires b'.placeId == b.placeId
    requires a.placeId != b.placeId && b.placeId != c.placeId && a.placeId != c.placeId
    ensures var rows := Collect([a, b, b', c], lookup);
      && RowIds(rows) == [a.placeId, b.placeId, c.placeId]
      && rows[1] == MakeRow(b, ExtractDetails(lookup(b.placeId)))
  {
    var ra := MakeRow(a, ExtractDetails(lookup(a.placeId)));
    var rb := MakeRow(b, ExtractDetails(lookup(b.placeId)));
    var rc := MakeRow(c, ExtractDetails(lookup(c.placeId)));
    var s0: seq<Place> := [];
    var r0: seq<Row> := [];
    var r1 := r0 + [ra];
    var r2 := r1 + [rb];
    var r3 := r2 + [rc];
    assert RowIds(r1) == [a.placeId] by {
      RowIdsSnoc(r0, ra);
    }
    assert RowIds(r2) == [a.placeId, b.placeId] by {
      RowIdsSnoc(r1, rb);
    }
    assert RowIds(r3) == [a.placeId, b.placeId, c.placeId] by {
      RowIdsSnoc(r2, rc);
    }
    assert Collect(s0 + [a], lookup) == r1 by {
      CollectSnoc(s0, a, lookup);
    }
    assert Collect(s0 + [a] + [b], lookup) == r2 by {
      CollectSnoc(s0 + [a], b, lookup);
    }
    assert Collect(s0 + [a] + [b] + [b'], lookup) == r2 by {
      CollectSnoc(s0 + [a] + [b], b', lookup);
    }
    assert Collect(s0 + [a] + [b] + [b'] + [c], lookup) == r3 by {
      CollectSnoc(s0 + [a] + [b] + [b'], c, lookup);
    }
    assert s0 + [a] + [b] + [b'] + [c] == [a, b, b', c];
  }

  /** Two queries returning [a, b] and [b', c], where b' has b's id: the
      records are a, b, c in that order, and b keeps its first occurrence. */
  lemma DuplicateAcrossQueries(a: Place, b: Place, b': Place, c: Place, q1: string, q2: string,
                               search: string -> SearchResponse, lookup: PlaceId -> DetailsResponse)
    requires search(q1) == SearchResponse(Some([a, b])) && search(q2) == SearchResponse(Some([b', c]))
    requires b'.placeId == b.placeId
    requires a.placeId != b.placeId && b.placeId != c.placeId && a.placeId != c.placeId
    ensures var rows := Collect(AllResults([q1, q2], search), lookup);
      && RowIds(rows) == [a.placeId, b.placeId, c.placeId]
      && rows[1] == MakeRow(b, ExtractDetails(lookup(b.placeId)))
  {
    assert [q1, q2][..1] == [q1];
    assert [q1][..0] == [];
    assert AllResults([q1], search) == [a, b];
    assert AllResults([q1, q2], search) == [a, b, b', c];
    DuplicateKeptOnce(a, b, b', c, lookup);
  }
}
