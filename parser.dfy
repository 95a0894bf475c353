/** The two response normalisers of parser.py. Each walks the vendor's
    nested JSON with `dict.get`, appends one flat row per item inside a
    `for` loop, and wraps the whole walk in one `try`: a fault stops the walk
    and the rows appended before it are returned. */
module Parser {
  import opened PyJson

  /** One row of the listings table; the fields are the columns
      `id, make, model, derivative, year, price, advert_link` in that order.
      A field the advert does not carry is `null`. */
  datatype ListingRow = ListingRow(
    id: Json, make: Json, model: Json, derivative: Json,
    year: Json, price: Json, advertLink: Json)

  /** One row of the facets table, columns `facet, label, value, count,
      selected`; the `label` column holds the value's `name`, so the field
      is called `name` here. */
  datatype FacetRow = FacetRow(facet: Json, name: Json, value: Json, count: Json, selected: Json)

  /** The rows collected by a walk, and whether it reached the end without a
      fault. */
  datatype Scan<T> = Scan(rows: seq<T>, complete: bool)

  // ---------------------------------------------------------------------
  // Listings
  // ---------------------------------------------------------------------

  const AdvertsPath: seq<string> := ["data", "search", "results", "adverts"]

  /** `raw_json[0].get("data", {}).get("search", {}).get("results", {})`
      followed by `.get("adverts", [])`. */
  function ListingAdverts(raw: Json): Result<Json> {
    var top :- IndexZero(raw);
    GetChain(top, AdvertsPath, EmptyArr)
  }

  /** The adverts the loop visits: none when the envelope faults, when
      `adverts` is falsy, or when it cannot be iterated. */
  function AdvertItems(raw: Json): seq<Json> {
    match ListingAdverts(raw)
    case Err(_) => []
    case Ok(adverts) =>
      if !Truthy(adverts) then []
      else
        match Iterate(adverts)
        case Err(_) => []
        case Ok(items) => items
  }

  /** The body of the listings loop for one advert: the three sub-objects
      are fetched with `{}` as default and then each column with `.get`.
      Any `.get` on a value that is not a dict faults before the row is
      appended. */
  function AdvertRecord(advert: Json): Result<ListingRow> {
    var vehicle :- DictGet(advert, "vehicle", EmptyObj);
    // From here on `advert` is a dict, so its own `.get` calls succeed.
    var pricing :- GetChain(advert, ["pricing", "advertPrice"], EmptyObj);
    var urls := DictGet(advert, "advertUrls", EmptyObj).value;
    var id := DictGet(advert, "advertId", JNull).value;
    var make :- DictGet(vehicle, "make", JNull);
    var model := DictGet(vehicle, "model", JNull).value;
    var derivative := DictGet(vehicle, "derivative", JNull).value;
    var year := DictGet(vehicle, "year", JNull).value;
    var price :- DictGet(pricing, "displayPrice", JNull);
    var link :- DictGet(urls, "canonical", JNull);
    Ok(ListingRow(id, make, model, derivative, year, price, link))
  }

  /** The row an advert stands for when every field is read independently:
      each column is the value at its own path, `null` where that path is
      missing. */
  function IdealRow(advert: Json): ListingRow {
    ListingRow(
      ValueAt(advert, ["advertId"], JNull),
      ValueAt(advert, ["vehicle", "make"], JNull),
      ValueAt(advert, ["vehicle", "model"], JNull),
      ValueAt(advert, ["vehicle", "derivative"], JNull),
      ValueAt(advert, ["vehicle", "year"], JNull),
      ValueAt(advert, ["pricing", "advertPrice", "displayPrice"], JNull),
      ValueAt(advert, ["advertUrls", "canonical"], JNull))
  }

  /** The advert is a dict, and `vehicle`, `pricing`, `pricing.advertPrice`
      and `advertUrls` are each absent or a dict. */
  predicate WellShapedAdvert(advert: Json) {
    && ObjectsAlong(advert, ["vehicle"])
    && ObjectsAlong(advert, ["pricing", "advertPrice"])
    && ObjectsAlong(advert, ["advertUrls"])
  }

  /** `rows` is what the loop collects from `adverts`: one row per advert,
      in order, up to the first advert whose body faults. */
  predicate RowsBeforeFault(adverts: seq<Json>, rows: seq<ListingRow>) {
    && |rows| <= |adverts|
    && (forall k :: 0 <= k < |rows| ==> AdvertRecord(adverts[k]) == Ok(rows[k]))
    && (|rows| < |adverts| ==> AdvertRecord(adverts[|rows|]).Err?)
  }

  function RecordsBeforeFault(adverts: seq<Json>): (rows: seq<ListingRow>)
    ensures RowsBeforeFault(adverts, rows)
  {
    if adverts == [] then []
    else
      match AdvertRecord(adverts[0])
      case Err(_) => []
      case Ok(row) =>
        var rest := RecordsBeforeFault(adverts[1..]);
        RowsBeforeFaultCons(adverts, row, rest);
        [row] + rest
  }

  /** A row in front of the rows of the remaining adverts. */
  lemma RowsBeforeFaultCons(adverts: seq<Json>, row: ListingRow, rest: seq<ListingRow>)
    requires adverts != [] && AdvertRecord(adverts[0]) == Ok(row)
    requires RowsBeforeFault(adverts[1..], rest)
    ensures RowsBeforeFault(adverts, [row] + rest)
  {
    var rows := [row] + rest;
    forall k | 0 < k < |rows| ensures AdvertRecord(adverts[k]) == Ok(rows[k]) {
      assert adverts[k] == adverts[1..][k - 1] && rows[k] == rest[k - 1];
    }
    if |rows| < |adverts| {
      assert adverts[|rows|] == adverts[1..][|rest|];
    }
  }

  /** What `parse_listings` returns, as a sequence of rows. */
  function ListingsOf(raw: Json): seq<ListingRow> {
    RecordsBeforeFault(AdvertItems(raw))
  }

  /** Only one sequence of rows fits `RowsBeforeFault`. */
  lemma {:induction false} RowsBeforeFaultUnique(adverts: seq<Json>, r1: seq<ListingRow>, r2: seq<ListingRow>)
    requires RowsBeforeFault(adverts, r1) && RowsBeforeFault(adverts, r2)
    ensures r1 == r2
  {
    if |r1| < |r2| {
      assert false;
    } else if |r2| < |r1| {
      assert false;
    } else {
      forall k | 0 <= k < |r1| ensures r1[k] == r2[k] {
        assert AdvertRecord(adverts[k]) == Ok(r1[k]);
      }
    }
  }

  /** parser.py `parse_listings`: the loop appends one row per advert and
      stops at the first fault, keeping what it has. */
  method ParseListings(raw: Json) returns (rows: seq<ListingRow>)
    ensures RowsBeforeFault(AdvertItems(raw), rows)
    ensures rows == ListingsOf(raw)
  {
    rows := [];
    // The envelope lookups and the `if not adverts` return come first;
    // an envelope that faults leaves nothing to visit.
    var items := AdvertItems(raw);
    var i := 0;
    while i < |items|
      invariant 0 <= i <= |items| && |rows| == i
      invariant forall k :: 0 <= k < i ==> AdvertRecord(items[k]) == Ok(rows[k])
    {
      var record := AdvertRecord(items[i]);
      if record.Err? {
        RowsBeforeFaultUnique(items, rows, RecordsBeforeFault(items));
        return;
      }
      rows := rows + [record.value];
      i := i + 1;
    }
    RowsBeforeFaultUnique(items, rows, RecordsBeforeFault(items));
  }

  /** One advert's row: its body faults exactly when the advert, or one of
      its present sub-values `vehicle`, `pricing`, `pricing.advertPrice`,
      `advertUrls`, is not a dict; otherwise every column is read
      independently, `null` where its own path is missing. */
  lemma AdvertRecordMeaning(advert: Json)
    ensures AdvertRecord(advert).Ok? <==> WellShapedAdvert(advert)
    ensures AdvertRecord(advert).Ok? ==> AdvertRecord(advert).value == IdealRow(advert)
  {
    if advert.JObj? {
      var vehicle := DictGet(advert, "vehicle", EmptyObj).value;
      var urls := DictGet(advert, "advertUrls", EmptyObj).value;
      GetThenGet(advert, "vehicle", "make", JNull);
      GetThenGet(advert, "vehicle", "model", JNull);
      GetThenGet(advert, "vehicle", "derivative", JNull);
      GetThenGet(advert, "vehicle", "year", JNull);
      GetThenGet(advert, "advertUrls", "canonical", JNull);
      PricingChain(advert);
      assert ValueAt(advert, ["advertId"], JNull) == DictGet(advert, "advertId", JNull).value;
    }
  }

  /** `advert.get("pricing", {}).get("advertPrice", {}).get("displayPrice")`
      succeeds exactly when `pricing` and `pricing.advertPrice` are each
      absent or a dict, and then reads the price at its path. */
  lemma PricingChain(advert: Json)
    requires advert.JObj?
    ensures var pricing := GetChain(advert, ["pricing", "advertPrice"], EmptyObj);
      && (pricing.Ok? && DictGet(pricing.value, "displayPrice", JNull).Ok?
          <==> ObjectsAlong(advert, ["pricing", "advertPrice"]))
      && (pricing.Ok? && DictGet(pricing.value, "displayPrice", JNull).Ok? ==>
          DictGet(pricing.value, "displayPrice", JNull).value
            == ValueAt(advert, ["pricing", "advertPrice", "displayPrice"], JNull))
  {
    var path := ["pricing", "advertPrice", "displayPrice"];
    assert path[..2] == ["pricing", "advertPrice"];
    assert ["pricing", "advertPrice"][..1] == ["pricing"];
    var pricing := GetChain(advert, ["pricing", "advertPrice"], EmptyObj);
    if pricing.Ok? {
      var p := pricing.value;
      assert p.JObj? ==> DictGet(p, "displayPrice", JNull) == GetChain(p, ["displayPrice"], JNull);
    }
  }

  /** The rows are always a prefix of the ideal row-per-advert mapping: never
      more rows than adverts, each row the ideal row of the advert in the
      same position. */
  lemma ListingsArePrefixOfIdeal(raw: Json)
    ensures |ListingsOf(raw)| <= |AdvertItems(raw)|
    ensures forall k :: 0 <= k < |ListingsOf(raw)| ==> ListingsOf(raw)[k] == IdealRow(AdvertItems(raw)[k])
  {
    var items, rows := AdvertItems(raw), ListingsOf(raw);
    forall k | 0 <= k < |rows| ensures rows[k] == IdealRow(items[k]) {
      AdvertRecordMeaning(items[k]);
    }
  }

  /** When the first malformed advert is at position `bad` (or `bad` is the
      number of adverts and none is malformed), the rows are exactly the
      ideal rows of the adverts before it. */
  lemma ListingsStopAtFirstMalformed(raw: Json, bad: nat)
    requires bad <= |AdvertItems(raw)|
    requires forall k :: 0 <= k < bad ==> WellShapedAdvert(AdvertItems(raw)[k])
    requires bad < |AdvertItems(raw)| ==> !WellShapedAdvert(AdvertItems(raw)[bad])
    ensures ListingsOf(raw) == seq(bad, k requires 0 <= k < bad => IdealRow(AdvertItems(raw)[k]))
  {
    var items := AdvertItems(raw);
    var ideal := seq(bad, k requires 0 <= k < bad => IdealRow(items[k]));
    forall k | 0 <= k < bad ensures AdvertRecord(items[k]) == Ok(ideal[k]) {
      AdvertRecordMeaning(items[k]);
    }
    if bad < |items| {
      AdvertRecordMeaning(items[bad]);
    }
    RowsBeforeFaultUnique(items, ideal, ListingsOf(raw));
  }

  /** When the whole response is well formed, there is one row per advert,
      in input order. */
  lemma ListingsOnePerAdvert(raw: Json)
    requires forall k :: 0 <= k < |AdvertItems(raw)| ==> WellShapedAdvert(AdvertItems(raw)[k])
    ensures |ListingsOf(raw)| == |AdvertItems(raw)|
    ensures forall k :: 0 <= k < |AdvertItems(raw)| ==> ListingsOf(raw)[k] == IdealRow(AdvertItems(raw)[k])
  {
    ListingsStopAtFirstMalformed(raw, |AdvertItems(raw)|);
  }

  /** The adverts visited are the `adverts` list of a well-formed envelope:
      a non-empty top-level list whose first item is a dict in which `data`,
      `search` and `results` are each absent or a dict. */
  lemma AdvertItemsOfEnvelope(raw: Json, adverts: seq<Json>)
    requires raw.JArr? && raw.items != []
    requires ObjectsAlong(raw.items[0], ["data", "search", "results"])
    requires ValueAt(raw.items[0], AdvertsPath, EmptyArr) == JArr(adverts)
    ensures AdvertItems(raw) == adverts
  {
    assert AdvertsPath[..3] == ["data", "search", "results"];
  }

  /** No rows when the top level is not a non-empty list whose first item is
      a dict, or when `adverts` is missing at any level of its path, `null`
      or empty. */
  lemma ListingsEmptyCases(raw: Json)
    requires
      || !raw.JArr? || raw.items == [] || !raw.items[0].JObj?
      || !Truthy(ValueAt(raw.items[0], AdvertsPath, EmptyArr))
    ensures ListingsOf(raw) == []
  {
    if raw.JArr? && raw.items != [] && raw.items[0].JObj? {
      assert AdvertItems(raw) == [];
    } else {
      assert AdvertItems(raw) == [];
    }
  }

  // A sample response whose one advert has no `pricing` key.
  const SampleVehicle: Json := JObj([("make", JStr("BMW")), ("model", JStr("3 Series")),
                                     ("derivative", JStr("320d")), ("year", JInt(2019))])
  const SampleUrls: Json := JObj([("canonical", JStr("/car/A1"))])
  const SampleAdvert: Json :=
    JObj([("advertId", JStr("A1")), ("vehicle", SampleVehicle), ("advertUrls", SampleUrls)])
  const SampleResults: Json := JObj([("adverts", JArr([SampleAdvert]))])
  const SampleSearch: Json := JObj([("results", SampleResults)])
  const SampleData: Json := JObj([("search", SampleSearch)])
  const SampleEnvelope: Json := JObj([("data", SampleData)])
  const SampleResponse: Json := JArr([SampleEnvelope])

  lemma SampleAdvertRecord()
    ensures AdvertRecord(SampleAdvert)
      == Ok(ListingRow(JStr("A1"), JStr("BMW"), JStr("3 Series"), JStr("320d"), JInt(2019),
                       JNull, JStr("/car/A1")))
  {
    var advert, vehicle := SampleAdvert, SampleVehicle;
    assert Lookup(advert.fields, "advertId") == Some(JStr("A1"));
    assert Lookup(advert.fields, "vehicle") == Some(vehicle);
    LookupAbsent(advert.fields, "pricing");
    LookupFirst(advert.fields, "advertUrls", 2);
    assert Lookup(vehicle.fields, "make") == Some(JStr("BMW"));
    assert Lookup(vehicle.fields, "model") == Some(JStr("3 Series"));
    LookupFirst(vehicle.fields, "derivative", 2);
    LookupFirst(vehicle.fields, "year", 3);
    assert Lookup(SampleUrls.fields, "canonical") == Some(JStr("/car/A1"));
    ValueAtStep(advert, "pricing", ["advertPrice"], EmptyObj);
    assert ObjectsAlong(advert, ["pricing"]) by {
      ValueAtStep(advert, "pricing", [], EmptyObj);
    }
    assert ["pricing", "advertPrice"][..1] == ["pricing"];
    assert GetChain(advert, ["pricing", "advertPrice"], EmptyObj) == Ok(EmptyObj);
  }

  lemma SampleAdvertItems()
    ensures AdvertItems(SampleResponse) == [SampleAdvert]
  {
    ValueAtStep(SampleEnvelope, "data", ["search", "results"], EmptyArr);
    ValueAtStep(SampleData, "search", ["results"], EmptyArr);
    ValueAtStep(SampleSearch, "results", [], EmptyArr);
    ValueAtStep(SampleEnvelope, "data", ["search", "results", "adverts"], EmptyArr);
    ValueAtStep(SampleData, "search", ["results", "adverts"], EmptyArr);
    ValueAtStep(SampleSearch, "results", ["adverts"], EmptyArr);
    ValueAtStep(SampleResults, "adverts", [], EmptyArr);
    AdvertItemsOfEnvelope(SampleResponse, [SampleAdvert]);
  }

  /** An advert with no `pricing` key still yields its row, with only the
      price `null`. */
  lemma MissingPricingKeepsOtherFields()
    ensures ListingsOf(SampleResponse)
      == [ListingRow(JStr("A1"), JStr("BMW"), JStr("3 Series"), JStr("320d"), JInt(2019),
                     JNull, JStr("/car/A1"))]
  {
    SampleAdvertItems();
    SampleAdvertRecord();
    assert [SampleAdvert][1..] == [];
  }

  // ---------------------------------------------------------------------
  // Facets
  // ---------------------------------------------------------------------

  const FacetsPath: seq<string> := ["data", "search", "adverts", "facets"]

  /** `raw_json[0].get("data", {}).get("search", {}).get("adverts", {})`
      followed by `.get("facets", [])`. */
  function FacetList(raw: Json): Result<Json> {
    var top :- IndexZero(raw);
    GetChain(top, FacetsPath, EmptyArr)
  }

  /** The facets the outer loop visits: none when the envelope faults, when
      `facets` is falsy, or when it cannot be iterated. */
  function FacetItems(raw: Json): seq<Json> {
    match FacetList(raw)
    case Err(_) => []
    case Ok(facets) =>
      if !Truthy(facets) then []
      else
        match Iterate(facets)
        case Err(_) => []
        case Ok(items) => items
  }

  /** The row a facet value stands for, each column read on its own. */
  function IdealValueRow(facetName: Json, v: Json): FacetRow {
    FacetRow(facetName,
             ValueAt(v, ["name"], JNull), ValueAt(v, ["value"], JNull),
             ValueAt(v, ["count"], JNull), ValueAt(v, ["selected"], JNull))
  }

  /** The body of the inner loop: the row of one facet value. */
  function ValueRow(facetName: Json, v: Json): (r: Result<FacetRow>)
    ensures r.Ok? <==> v.JObj?
    ensures r.Ok? ==> r.value == IdealValueRow(facetName, v)
  {
    var valueName :- DictGet(v, "name", JNull);
    // `v` is a dict from here on.
    var value := DictGet(v, "value", JNull).value;
    var count := DictGet(v, "count", JNull).value;
    var selected := DictGet(v, "selected", JNull).value;
    ValueAtStep(v, "name", [], JNull);
    ValueAtStep(v, "value", [], JNull);
    ValueAtStep(v, "count", [], JNull);
    ValueAtStep(v, "selected", [], JNull);
    Ok(FacetRow(facetName, valueName, value, count, selected))
  }

  /** The inner loop over the values of one facet: one row per value, in
      order, stopping at the first value that is not a dict. */
  function ValueRows(facetName: Json, values: seq<Json>): (r: Scan<FacetRow>)
    ensures |r.rows| <= |values|
    ensures forall k :: 0 <= k < |r.rows| ==>
      values[k].JObj? && r.rows[k] == IdealValueRow(facetName, values[k])
    ensures r.complete <==> |r.rows| == |values|
    ensures |r.rows| < |values| ==> !values[|r.rows|].JObj?
    decreases |values|
  {
    if values == [] then Scan([], true)
    else
      var before := ValueRows(facetName, values[..|values| - 1]);
      if !before.complete then before
      else
        match ValueRow(facetName, values[|values| - 1])
        case Err(_) => Scan(before.rows, false)
        case Ok(row) => Scan(before.rows + [row], true)
  }

  /** One pass of the outer loop: a facet that is not a dict faults at
      `facet.get("name")`; a facet with a falsy `name` or `values` is
      skipped; otherwise its values are walked. */
  function FacetScan(facet: Json): Scan<FacetRow> {
    match DictGet(facet, "name", JNull)
    case Err(_) => Scan([], false)
    case Ok(name) =>
      var values := DictGet(facet, "values", EmptyArr).value;
      if !Truthy(name) || !Truthy(values) then Scan([], true)
      else
        match Iterate(values)
        case Err(_) => Scan([], false)
        case Ok(vs) => ValueRows(name, vs)
  }

  /** The outer loop over the facets, up to the first fault. */
  function FacetsScan(facets: seq<Json>): Scan<FacetRow>
    decreases |facets|
  {
    if facets == [] then Scan([], true)
    else
      var before := FacetsScan(facets[..|facets| - 1]);
      if !before.complete then before
      else
        var last := FacetScan(facets[|facets| - 1]);
        Scan(before.rows + last.rows, last.complete)
  }

  /** The rows of the outer loop over `facets`. */
  function FacetsOfItems(facets: seq<Json>): seq<FacetRow> {
    FacetsScan(facets).rows
  }

  /** What `parse_facets` returns, as a sequence of rows. */
  function FacetsOf(raw: Json): seq<FacetRow> {
    FacetsOfItems(FacetItems(raw))
  }

  /** Once a walk has faulted, the values after the fault change nothing. */
  lemma {:induction false} ValueRowsFaultIsFinal(facetName: Json, values: seq<Json>, more: seq<Json>)
    requires !ValueRows(facetName, values).complete
    ensures ValueRows(facetName, values + more) == ValueRows(facetName, values)
    decreases |more|
  {
    if more == [] {
      assert values + more == values;
    } else {
      var shorter := more[..|more| - 1];
      assert (values + more)[..|values + more| - 1] == values + shorter;
      ValueRowsFaultIsFinal(facetName, values, shorter);
    }
  }

  /** Facets: a walk that reached the end has its rows extended, never
      changed, by further facets; once it has faulted, further facets change
      nothing. */
  lemma {:induction false} FacetsScanExtends(facets: seq<Json>, more: seq<Json>)
    ensures FacetsScan(facets).complete ==>
      && |FacetsScan(facets).rows| <= |FacetsScan(facets + more).rows|
      && FacetsScan(facets + more).rows[..|FacetsScan(facets).rows|] == FacetsScan(facets).rows
    ensures !FacetsScan(facets).complete ==> FacetsScan(facets + more) == FacetsScan(facets)
    decreases |more|
  {
    if more == [] {
      assert facets + more == facets;
    } else {
      var shorter := more[..|more| - 1];
      assert (facets + more)[..|facets + more| - 1] == facets + shorter;
      FacetsScanExtends(facets, shorter);
    }
  }

  /** The outer loop's step: the walk over the first `i + 1` facets is the
      walk over the first `i`, followed by facet `i`'s pass. */
  lemma FacetsScanStep(facets: seq<Json>, i: nat, rows: seq<FacetRow>)
    requires i < |facets| && FacetsScan(facets[..i]) == Scan(rows, true)
    ensures FacetsScan(facets[..i + 1])
      == Scan(rows + FacetScan(facets[i]).rows, FacetScan(facets[i]).complete)
  {
    assert facets[..i + 1][..i] == facets[..i];
  }

  /** A fault in facet `i` ends the whole walk. */
  lemma FacetFaultEndsWalk(facets: seq<Json>, i: nat, rows: seq<FacetRow>)
    requires i < |facets| && FacetsScan(facets[..i]) == Scan(rows, true)
    requires !FacetScan(facets[i]).complete
    ensures FacetsOfItems(facets) == rows + FacetScan(facets[i]).rows
  {
    FacetsScanStep(facets, i, rows);
    FacetsScanExtends(facets[..i + 1], facets[i + 1..]);
    assert facets[..i + 1] + facets[i + 1..] == facets;
  }

  /** The inner loop's fault. */
  lemma ValueRowsFaultStep(facetName: Json, vs: seq<Json>, j: nat, rows: seq<FacetRow>)
    requires j < |vs| && ValueRows(facetName, vs[..j]) == Scan(rows, true)
    requires ValueRow(facetName, vs[j]).Err?
    ensures ValueRows(facetName, vs[..j + 1]) == Scan(rows, false)
  {
    assert vs[..j + 1][..j] == vs[..j];
  }

  /** A fault at value `j` ends the walk over a facet's values. */
  lemma ValueFaultEndsFacet(facetName: Json, vs: seq<Json>, j: nat, rows: seq<FacetRow>)
    requires j < |vs| && ValueRows(facetName, vs[..j]) == Scan(rows, true)
    requires ValueRow(facetName, vs[j]).Err?
    ensures ValueRows(facetName, vs) == Scan(rows, false)
  {
    ValueRowsFaultStep(facetName, vs, j, rows);
    ValueRowsFaultIsFinal(facetName, vs[..j + 1], vs[j + 1..]);
    assert vs[..j + 1] + vs[j + 1..] == vs;
  }

  /** The inner loop's step. */
  lemma ValueRowsStep(facetName: Json, vs: seq<Json>, j: nat, rows: seq<FacetRow>)
    requires j < |vs| && ValueRows(facetName, vs[..j]) == Scan(rows, true)
    requires ValueRow(facetName, vs[j]).Ok?
    ensures ValueRows(facetName, vs[..j + 1]) == Scan(rows + [ValueRow(facetName, vs[j]).value], true)
  {
    assert vs[..j + 1][..j] == vs[..j];
  }

  /** The inner loop of `parse_facets` over the values of one facet: one
      row per value, stopping at the first value that is not a dict. */
  method AppendValueRows(facetName: Json, vs: seq<Json>) returns (added: seq<FacetRow>, complete: bool)
    ensures ValueRows(facetName, vs) == Scan(added, complete)
  {
    added := [];
    var j := 0;
    while j < |vs|
      invariant 0 <= j <= |vs|
      invariant ValueRows(facetName, vs[..j]) == Scan(added, true)
    {
      var row := ValueRow(facetName, vs[j]);
      if row.Err? {
        ValueFaultEndsFacet(facetName, vs, j, added);
        return added, false;
      }
      ValueRowsStep(facetName, vs, j, added);
      added := added + [row.value];
      j := j + 1;
    }
    assert vs[..j] == vs;
    complete := true;
  }

  /** parser.py `parse_facets`: the outer loop visits the facets, skipping
      those with a falsy `name` or `values`, and appends the rows of each
      facet's values. The first fault ends both loops, keeping what has been
      appended. */
  method ParseFacets(raw: Json) returns (rows: seq<FacetRow>)
    ensures rows == FacetsOf(raw)
  {
    rows := [];
    var facets := FacetItems(raw);
    var i := 0;
    while i < |facets|
      invariant 0 <= i <= |facets|
      invariant FacetsScan(facets[..i]) == Scan(rows, true)
    {
      FacetsScanStep(facets, i, rows);
      var facet := facets[i];
      var name := DictGet(facet, "name", JNull);
      if name.Err? {
        FacetFaultEndsWalk(facets, i, rows);
        return;
      }
      var values := DictGet(facet, "values", EmptyArr).value;
      if !Truthy(name.value) || !Truthy(values) {
        assert rows + FacetScan(facet).rows == rows;
        i := i + 1;
        continue;
      }
      var iteration := Iterate(values);
      if iteration.Err? {
        FacetFaultEndsWalk(facets, i, rows);
        assert rows + FacetScan(facet).rows == rows;
        return;
      }
      var added, complete := AppendValueRows(name.value, iteration.value);
      if !complete {
        FacetFaultEndsWalk(facets, i, rows);
        rows := rows + added;
        return;
      }
      rows := rows + added;
      i := i + 1;
    }
    assert facets[..i] == facets;
  }

  /** A facet (a dict) whose `name` or `values` is falsy; its pass adds no
      rows. */
  predicate SkippedFacet(facet: Json) {
    !Truthy(ValueAt(facet, ["name"], JNull)) || !Truthy(ValueAt(facet, ["values"], EmptyArr))
  }

  /** A facet whose pass ends without a fault: a dict that is skipped, or
      whose `values` is a list of dicts. */
  predicate WellShapedFacet(facet: Json) {
    && facet.JObj?
    && (|| SkippedFacet(facet)
        || (var values := ValueAt(facet, ["values"], EmptyArr);
            values.JArr? && forall k :: 0 <= k < |values.items| ==> values.items[k].JObj?))
  }

  /** The rows a well-shaped facet stands for: one per value, in order. */
  function IdealFacetRows(facet: Json): seq<FacetRow>
    requires WellShapedFacet(facet)
  {
    if SkippedFacet(facet) then []
    else
      var name := ValueAt(facet, ["name"], JNull);
      var values := ValueAt(facet, ["values"], EmptyArr).items;
      seq(|values|, k requires 0 <= k < |values| => IdealValueRow(name, values[k]))
  }

  /** The rows of well-shaped facets, facet after facet. */
  function IdealFacetsRows(facets: seq<Json>): seq<FacetRow>
    requires forall k :: 0 <= k < |facets| ==> WellShapedFacet(facets[k])
    decreases |facets|
  {
    if facets == [] then []
    else IdealFacetsRows(facets[..|facets| - 1]) + IdealFacetRows(facets[|facets| - 1])
  }

  /** One pass of the outer loop ends without a fault exactly when the facet
      is well shaped, and then yields the facet's ideal rows. */
  lemma FacetScanMeaning(facet: Json)
    ensures FacetScan(facet).complete <==> WellShapedFacet(facet)
    ensures WellShapedFacet(facet) ==> FacetScan(facet).rows == IdealFacetRows(facet)
  {
    if facet.JObj? {
      ValueAtStep(facet, "name", [], JNull);
      ValueAtStep(facet, "values", [], EmptyArr);
      var name := DictGet(facet, "name", JNull).value;
      var values := DictGet(facet, "values", EmptyArr).value;
      if Truthy(name) && Truthy(values) && Iterate(values).Ok? {
        var vs := Iterate(values).value;
        var scan := ValueRows(name, vs);
        if values.JArr? {
          if forall k :: 0 <= k < |vs| ==> vs[k].JObj? {
            assert scan.complete;
            assert scan.rows == IdealFacetRows(facet);
          }
        } else {
          assert vs[0].JStr?;
          assert !scan.complete;
        }
      }
    }
  }

  /** Well-shaped facets are walked to the end, yielding their ideal rows. */
  lemma {:induction false} FacetsScanWellShaped(facets: seq<Json>)
    requires forall k :: 0 <= k < |facets| ==> WellShapedFacet(facets[k])
    ensures FacetsScan(facets) == Scan(IdealFacetsRows(facets), true)
    decreases |facets|
  {
    if facets != [] {
      FacetsScanWellShaped(facets[..|facets| - 1]);
      FacetScanMeaning(facets[|facets| - 1]);
    }
  }

  /** When the whole facet list is well shaped, `parse_facets` yields every
      facet's ideal rows, facet after facet. */
  lemma FacetsAllRows(raw: Json)
    requires forall k :: 0 <= k < |FacetItems(raw)| ==> WellShapedFacet(FacetItems(raw)[k])
    ensures FacetsOf(raw) == IdealFacetsRows(FacetItems(raw))
  {
    FacetsScanWellShaped(FacetItems(raw));
  }

  /** When the first malformed facet is at position `bad`, the rows are the
      ideal rows of the facets before it, followed by the rows of that
      facet's values before its first value that is not a dict. */
  lemma FacetsStopAtFirstMalformed(raw: Json, bad: nat)
    requires bad < |FacetItems(raw)|
    requires forall k :: 0 <= k < bad ==> WellShapedFacet(FacetItems(raw)[k])
    requires !WellShapedFacet(FacetItems(raw)[bad])
    ensures FacetsOf(raw) == IdealFacetsRows(FacetItems(raw)[..bad]) + FacetScan(FacetItems(raw)[bad]).rows
    ensures !FacetScan(FacetItems(raw)[bad]).complete
  {
    var facets := FacetItems(raw);
    FacetsScanWellShaped(facets[..bad]);
    FacetScanMeaning(facets[bad]);
    FacetFaultEndsWalk(facets, bad, IdealFacetsRows(facets[..bad]));
  }

  /** No rows when the top level is not a non-empty list whose first item is
      a dict, or when `facets` is missing at any level of its path, `null`
      or empty. */
  lemma FacetsEmptyCases(raw: Json)
    requires
      || !raw.JArr? || raw.items == [] || !raw.items[0].JObj?
      || !Truthy(ValueAt(raw.items[0], FacetsPath, EmptyArr))
    ensures FacetsOf(raw) == []
  {
    assert FacetItems(raw) == [];
  }

  /** The facets visited are the `facets` list of a well-formed envelope. */
  lemma FacetItemsOfEnvelope(raw: Json, facets: seq<Json>)
    requires raw.JArr? && raw.items != []
    requires ObjectsAlong(raw.items[0], ["data", "search", "adverts"])
    requires ValueAt(raw.items[0], FacetsPath, EmptyArr) == JArr(facets)
    ensures FacetItems(raw) == facets
  {
    assert FacetsPath[..3] == ["data", "search", "adverts"];
  }
}
