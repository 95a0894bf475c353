/** client.py: the two GraphQL payloads, the extraction of the car makes
    from the facets response, and what the two fetch functions return once
    the HTTP exchange is over. The exchange itself is an abstract outcome. */
module Client {
  import opened PyJson
  import opened PyText
  import opened Parser
  import UrlQuote
  import Config
  import opened JsonReplace

  // ---------------------------------------------------------------------
  // The makes payload
  // ---------------------------------------------------------------------

  /** The lines of the GraphQL document of the facets query, once the JSON
      escapes `\n` have been decoded. */
  const MakesQueryLines: seq<string> := [
    "query SearchFormFacetsQuery(",
    "$advertQuery: AdvertQuery!, ",
    "$facets: [SearchFacetName]) {\n",
    "  search {\n",
    "    adverts(advertQuery: ",
    "$advertQuery) {\n",
    "      facets(facets: $facets) {\n",
    "        name\n",
    "        values {\n",
    "          name\n",
    "          value\n",
    "          count\n",
    "          selected\n",
    "          __typename\n",
    "        }\n",
    "        __typename\n",
    "      }\n",
    "      __typename\n",
    "    }\n",
    "    __typename\n",
    "  }\n",
    "}\n"]

  function Concat(pieces: seq<string>): string
    decreases |pieces|
  {
    if pieces == [] then [] else Concat(pieces[..|pieces| - 1]) + pieces[|pieces| - 1]
  }

  const MakesQueryDocument: string := Concat(MakesQueryLines)

  /** The payload of the facets query for one advertising location; the
      template in client.py is the one for `at_cars`. */
  function MakesPayload(location: string): Json {
    JArr([JObj([
      ("operationName", JStr("SearchFormFacetsQuery")),
      ("variables", MakesVariables(location)),
      ("query", JStr(MakesQueryDocument))])])
  }

  function MakesVariables(location: string): Json {
    JObj([
      ("advertQuery", AdvertQuery(location)),
      ("facets", JArr([JStr("make")]))])
  }

  /** The search the facets are counted over. */
  function AdvertQuery(location: string): Json {
    JObj([
      ("advertisingLocations", JArr([JStr(location)])),
      ("advertClassification", JArr([JStr("standard")])),
      ("postcode", JStr("se58db")),
      ("homeDeliveryAdverts", JStr("include"))])
  }

  /** The decoded template string of `build_makes_query`. */
  const MakesTemplate: Json := MakesPayload(Placeholder)

  /** A vehicle type that can be spliced into the JSON text without
      changing its structure: no quote, backslash or control character. */
  predicate SafeToken(s: string) {
    forall i :: 0 <= i < |s| ==> s[i] != '"' && s[i] != '\\' && s[i] as int >= 0x20
  }

  /** `build_makes_query(vehicle_type)`: the template with every `at_cars`
      replaced by `at_<vehicle_type>s`, decoded. The placeholder occurs only
      as the advertising location, so that is the one thing that changes. */
  function BuildMakesQuery(vehicleType: string): (r: Json)
    requires SafeToken(vehicleType)
    ensures r == MakesPayload(AdvertisingLocation(vehicleType))
  {
    SubstTemplate(AdvertisingLocation(vehicleType));
    Subst(MakesTemplate, AdvertisingLocation(vehicleType))
  }

  // A piece of the document is safe to join when it has no `t_` and does
  // not end in `t`.
  predicate JoinablePiece(s: string) {
    NoTU(s) && (s != [] ==> s[|s| - 1] != 't')
  }

  lemma {:induction false} ConcatNoTU(pieces: seq<string>)
    requires forall k :: 0 <= k < |pieces| ==> JoinablePiece(pieces[k])
    ensures NoTU(Concat(pieces)) && JoinablePiece(Concat(pieces))
    decreases |pieces|
  {
    if pieces != [] {
      var front := pieces[..|pieces| - 1];
      ConcatNoTU(front);
      NoTUConcat(Concat(front), pieces[|pieces| - 1]);
      var s := Concat(pieces);
      var last := pieces[|pieces| - 1];
      if last != [] {
        assert s[|s| - 1] == last[|last| - 1];
      } else {
        assert s == Concat(front);
      }
    }
  }

  lemma MakesLinesA()
    ensures JoinablePiece("query SearchFormFacetsQuery(")
    ensures JoinablePiece("$advertQuery: AdvertQuery!, ")
    ensures JoinablePiece("$facets: [SearchFacetName]) {\n")
    ensures JoinablePiece("  search {\n")
  {
  }

  lemma MakesLinesB()
    ensures JoinablePiece("    adverts(advertQuery: ")
    ensures JoinablePiece("$advertQuery) {\n")
    ensures JoinablePiece("      facets(facets: $facets) {\n")
    ensures JoinablePiece("        name\n")
  {
  }

  lemma MakesLinesC()
    ensures JoinablePiece("        values {\n")
    ensures JoinablePiece("          name\n")
    ensures JoinablePiece("          value\n")
    ensures JoinablePiece("          count\n")
  {
  }

  lemma MakesLinesD()
    ensures JoinablePiece("          selected\n")
    ensures JoinablePiece("          __typename\n")
    ensures JoinablePiece("        }\n")
    ensures JoinablePiece("        __typename\n")
  {
  }

  lemma MakesLinesE()
    ensures JoinablePiece("      }\n")
    ensures JoinablePiece("      __typename\n")
    ensures JoinablePiece("    }\n")
    ensures JoinablePiece("    __typename\n")
    ensures JoinablePiece("  }\n")
    ensures JoinablePiece("}\n")
  {
  }

  /** The document of the facets query has no `at_cars` in it. */
  lemma MakesDocumentNoTU()
    ensures NoTU(MakesQueryDocument)
  {
    MakesLinesA();
    MakesLinesB();
    MakesLinesC();
    MakesLinesD();
    MakesLinesE();
    assert forall k :: 0 <= k < |MakesQueryLines| ==> JoinablePiece(MakesQueryLines[k]);
    ConcatNoTU(MakesQueryLines);
  }

  /** The replacement leaves the keys and the fixed values of the advert
      query as they are. */
  lemma AdvertQueryKept(rep: string)
    ensures Kept("advertisingLocations", rep) && Kept("advertClassification", rep)
    ensures Kept("postcode", rep) && Kept("homeDeliveryAdverts", rep)
    ensures Kept("standard", rep) && Kept("se58db", rep) && Kept("include", rep)
  {
    assert NoUnderscore("advertisingLocations") && NoUnderscore("advertClassification");
    assert NoUnderscore("postcode") && NoUnderscore("homeDeliveryAdverts");
    assert NoUnderscore("standard") && NoUnderscore("se58db") && NoUnderscore("include");
    ReplaceNoUnderscore("advertisingLocations", rep);
    ReplaceNoUnderscore("advertClassification", rep);
    ReplaceNoUnderscore("postcode", rep);
    ReplaceNoUnderscore("homeDeliveryAdverts", rep);
    ReplaceNoUnderscore("standard", rep);
    ReplaceNoUnderscore("se58db", rep);
    ReplaceNoUnderscore("include", rep);
  }

  lemma SubstAdvertQuery(location: string, rep: string)
    ensures Subst(AdvertQuery(location), rep) == AdvertQuery(ReplaceAll(location, Placeholder, rep))
  {
    AdvertQueryKept(rep);
    SubstStrList1(location, rep);
    SubstStrList1("standard", rep);
    SubstObj4("advertisingLocations", JArr([JStr(location)]),
              "advertClassification", JArr([JStr("standard")]),
              "postcode", JStr("se58db"),
              "homeDeliveryAdverts", JStr("include"), rep);
  }

  lemma MakesVariablesKept(rep: string)
    ensures Kept("advertQuery", rep) && Kept("facets", rep) && Kept("make", rep)
  {
    assert NoUnderscore("advertQuery") && NoUnderscore("facets") && NoUnderscore("make");
    ReplaceNoUnderscore("advertQuery", rep);
    ReplaceNoUnderscore("facets", rep);
    ReplaceNoUnderscore("make", rep);
  }

  lemma SubstMakesVariables(location: string, rep: string)
    ensures Subst(MakesVariables(location), rep) == MakesVariables(ReplaceAll(location, Placeholder, rep))
  {
    MakesVariablesKept(rep);
    SubstStrList1("make", rep);
    SubstAdvertQuery(location, rep);
    SubstObj2("advertQuery", AdvertQuery(location), "facets", JArr([JStr("make")]), rep);
  }

  /** One operation of a GraphQL payload, whose name and document have no
      placeholder in them: only the variables can change. */
  lemma SubstOperation(operation: string, variables: Json, document: string, rep: string)
    requires NoTU(operation) && NoTU(document)
    ensures Subst(JArr([JObj([("operationName", JStr(operation)), ("variables", variables), ("query", JStr(document))])]), rep)
         == JArr([JObj([("operationName", JStr(operation)), ("variables", Subst(variables, rep)), ("query", JStr(document))])])
  {
    assert NoUnderscore("operationName") && NoUnderscore("variables") && NoUnderscore("query");
    ReplaceNoUnderscore("operationName", rep);
    ReplaceNoUnderscore("variables", rep);
    ReplaceNoUnderscore("query", rep);
    SubstStrNoTU(operation, rep);
    SubstStrNoTU(document, rep);
    SubstObj3("operationName", JStr(operation), "variables", variables, "query", JStr(document), rep);
    SubstList1(JObj([("operationName", JStr(operation)), ("variables", variables), ("query", JStr(document))]), rep);
  }

  /** Replacing the placeholder in the payload for `location` replaces it
      in the location and nowhere else. */
  lemma SubstMakesPayload(location: string, rep: string)
    ensures Subst(MakesPayload(location), rep) == MakesPayload(ReplaceAll(location, Placeholder, rep))
  {
    assert NoTU("SearchFormFacetsQuery");
    MakesDocumentNoTU();
    SubstOperation("SearchFormFacetsQuery", MakesVariables(location), MakesQueryDocument, rep);
    SubstMakesVariables(location, rep);
  }

  lemma SubstTemplate(rep: string)
    ensures Subst(MakesTemplate, rep) == MakesPayload(rep)
  {
    SubstMakesPayload(Placeholder, rep);
    ReplaceWhole(Placeholder, rep);
  }

  /** The makes payload for cars is the template itself. */
  lemma BuildMakesQueryCar()
    ensures SafeToken("car") && BuildMakesQuery("car") == MakesTemplate
  {
    assert AdvertisingLocation("car") == Placeholder;
  }

  /** Different vehicle types give different payloads. */
  lemma BuildMakesQueryInjective(t1: string, t2: string)
    requires SafeToken(t1) && SafeToken(t2) && t1 != t2
    ensures BuildMakesQuery(t1) != BuildMakesQuery(t2)
  {
    AdvertisingLocationInjective(t1, t2);
    MakesPayloadFields(AdvertisingLocation(t1));
    MakesPayloadFields(AdvertisingLocation(t2));
  }

  /** The single query of a payload list, or `null`. */
  function OnlyQuery(payload: Json): Json {
    if payload.JArr? && |payload.items| == 1 then payload.items[0] else JNull
  }

  /** `j[k]` read leniently: `null` when absent. This is the one-key case
      of the lenient path reading `ValueAt`. */
  function Field(j: Json, k: string): (r: Json)
    ensures r == ValueAt(j, [k], JNull)
  {
    assert [k][1..] == [];
    if HasKey(j, k) then Lookup(j.fields, k).value else JNull
  }

  /** The member at position `n`, when no earlier member has its key. */
  lemma FieldAt(fields: seq<(string, Json)>, n: nat)
    requires n < |fields| && forall m :: 0 <= m < n ==> fields[m].0 != fields[n].0
    ensures Field(JObj(fields), fields[n].0) == fields[n].1
  {
    LookupFirst(fields, fields[n].0, n);
  }

  /** Where the makes payload keeps the advertising locations. */
  function MakesLocations(payload: Json): Json {
    Field(Field(Field(OnlyQuery(payload), "variables"), "advertQuery"), "advertisingLocations")
  }

  /** The members of the advert query of the makes payload. */
  function AdvertQueryMember(payload: Json, k: string): Json {
    Field(Field(Field(OnlyQuery(payload), "variables"), "advertQuery"), k)
  }

  lemma MakesPayloadShape(location: string)
    ensures var q := OnlyQuery(MakesPayload(location));
      && Field(q, "operationName") == JStr("SearchFormFacetsQuery")
      && Field(q, "variables") == MakesVariables(location)
      && Field(q, "query") == JStr(MakesQueryDocument)
  {
    var q := OnlyQuery(MakesPayload(location));
    FieldAt(q.fields, 0);
    FieldAt(q.fields, 1);
    FieldAt(q.fields, 2);
  }

  lemma MakesVariablesFields(location: string)
    ensures var vars := MakesVariables(location);
      var aq := Field(vars, "advertQuery");
      && Field(aq, "advertisingLocations") == JArr([JStr(location)])
      && Field(aq, "advertClassification") == JArr([JStr("standard")])
      && Field(aq, "postcode") == JStr("se58db")
      && Field(aq, "homeDeliveryAdverts") == JStr("include")
      && Field(vars, "facets") == JArr([JStr("make")])
  {
    var vars := MakesVariables(location);
    FieldAt(vars.fields, 0);
    FieldAt(vars.fields, 1);
    var aq := vars.fields[0].1;
    FieldAt(aq.fields, 0);
    FieldAt(aq.fields, 1);
    FieldAt(aq.fields, 2);
    FieldAt(aq.fields, 3);
  }

  /** What the makes payload for `location` asks for. */
  lemma MakesPayloadFields(location: string)
    ensures var p := MakesPayload(location);
      && Field(OnlyQuery(p), "operationName") == JStr("SearchFormFacetsQuery")
      && MakesLocations(p) == JArr([JStr(location)])
      && AdvertQueryMember(p, "advertClassification") == JArr([JStr("standard")])
      && AdvertQueryMember(p, "postcode") == JStr("se58db")
      && AdvertQueryMember(p, "homeDeliveryAdverts") == JStr("include")
      && Field(Field(OnlyQuery(p), "variables"), "facets") == JArr([JStr("make")])
      && Field(OnlyQuery(p), "query") == JStr(MakesQueryDocument)
  {
    MakesPayloadShape(location);
    MakesVariablesFields(location);
  }

  /** `build_makes_query(vt)` asks for the makes at `at_<vt>s`; every other
      member is the template's. */
  lemma BuildMakesQueryFields(vehicleType: string)
    requires SafeToken(vehicleType)
    ensures var p := BuildMakesQuery(vehicleType);
      && p.JArr? && |p.items| == 1
      && MakesLocations(p) == JArr([JStr("at_" + vehicleType + "s")])
      && Field(OnlyQuery(p), "operationName") == JStr("SearchFormFacetsQuery")
      && AdvertQueryMember(p, "advertClassification") == JArr([JStr("standard")])
      && AdvertQueryMember(p, "postcode") == JStr("se58db")
      && AdvertQueryMember(p, "homeDeliveryAdverts") == JStr("include")
      && Field(Field(OnlyQuery(p), "variables"), "facets") == JArr([JStr("make")])
      && Field(OnlyQuery(p), "query") == JStr(MakesQueryDocument)
  {
    MakesPayloadFields(AdvertisingLocation(vehicleType));
  }

  // ---------------------------------------------------------------------
  // The results payload
  // ---------------------------------------------------------------------

  /** `f"at_{vehicle_type}s"`, the advertising location of a vehicle type. */
  function AdvertisingLocation(vehicleType: string): (r: string)
    ensures |r| == |vehicleType| + 4 && r[..3] == "at_" && r[|r| - 1] == 's'
    ensures r[3..|r| - 1] == vehicleType
  {
    "at_" + vehicleType + "s"
  }

  lemma AdvertisingLocationInjective(t1: string, t2: string)
    requires t1 != t2
    ensures AdvertisingLocation(t1) != AdvertisingLocation(t2)
  {
  }

  /** The GraphQL document of the results query, line by line as the
      triple-quoted string holds it: a leading newline, the indented lines
      with their `#` comments, and the indentation before the closing
      quotes. */
  const ResultsQueryLines: seq<string> := [
    "\n",
    "                query SearchResultsQuery($searchParameters: SearchParametersInput, $sort: AdvertSortOrder) {\n",
    "                    search(searchParameters: $searchParameters) {\n",
    "                        results {\n",
    "                            adverts {\n",
    "                                advertId # Often the unique ID\n",
    "                                vehicle {\n",
    "                                    make\n",
    "                                    model\n",
    "                                    derivative # More specific trim/version\n",
    "                                    year # Year of manufacture\n",
    "                                }\n",
    "                                pricing {\n",
    "                                    advertPrice {\n",
    "                                        displayPrice # Formatted price string (e.g., \U{A3}10,000)\n",
    "                                        # rawPrice # Might contain numeric price\n",
    "                                    }\n",
    "                                }\n",
    "                                advertUrls { # Check the exact structure via browser dev tools\n",
    "                                    canonical # Usually the main link\n",
    "                                }\n",
    "                                # Add other fields you need: mileage, images, specs etc.\n",
    "                            }\n",
    "                            pagination {\n",
    "                                pageNumber\n",
    "                                pageSize\n",
    "                                totalPages\n",
    "                                totalResults\n",
    "                            }\n",
    "                        }\n",
    "                    }\n",
    "                }\n",
    "            "]

  const ResultsQueryDocument: string := Concat(ResultsQueryLines)

  function SearchParameters(make: string, model: string, vehicleType: string): Json {
    JObj([
      ("make", JArr([JStr(make)])),
      ("model", JArr([JStr(model)])),
      ("postcode", JStr("SE5 8DB")),
      ("advertisingLocations", JArr([JStr(AdvertisingLocation(vehicleType))])),
      ("pageNumber", JInt(1)),
      ("pageSize", JInt(100))])
  }

  /** `build_results_query(make, model, vehicle_type)`: one query asking
      for the first page of 100 results for the make and model at the
      vehicle type's advertising location, sorted by relevance. */
  function BuildResultsQuery(make: string, model: string, vehicleType: string): Json {
    JArr([JObj([
      ("operationName", JStr("SearchResultsQuery")),
      ("variables", JObj([
        ("searchParameters", SearchParameters(make, model, vehicleType)),
        ("sort", JStr("relevance"))])),
      ("query", JStr(ResultsQueryDocument))])])
  }

  /** A search parameter of the results payload. */
  function ResultsParameter(payload: Json, k: string): Json {
    Field(Field(Field(OnlyQuery(payload), "variables"), "searchParameters"), k)
  }

  /** The outer members of the results payload. */
  lemma ResultsQueryShape(make: string, model: string, vehicleType: string)
    ensures var q := OnlyQuery(BuildResultsQuery(make, model, vehicleType));
      && Field(q, "operationName") == JStr("SearchResultsQuery")
      && Field(Field(q, "variables"), "searchParameters") == SearchParameters(make, model, vehicleType)
      && Field(Field(q, "variables"), "sort") == JStr("relevance")
      && Field(q, "query") == JStr(ResultsQueryDocument)
  {
    var q := OnlyQuery(BuildResultsQuery(make, model, vehicleType));
    FieldAt(q.fields, 0);
    FieldAt(q.fields, 1);
    FieldAt(q.fields, 2);
    var vars := q.fields[1].1;
    FieldAt(vars.fields, 0);
    FieldAt(vars.fields, 1);
  }

  lemma SearchParametersFields(make: string, model: string, vehicleType: string)
    ensures var ps := SearchParameters(make, model, vehicleType);
      && Field(ps, "make") == JArr([JStr(make)])
      && Field(ps, "model") == JArr([JStr(model)])
      && Field(ps, "postcode") == JStr("SE5 8DB")
      && Field(ps, "advertisingLocations") == JArr([JStr(AdvertisingLocation(vehicleType))])
      && Field(ps, "pageNumber") == JInt(1)
      && Field(ps, "pageSize") == JInt(100)
  {
    var ps := SearchParameters(make, model, vehicleType);
    FieldAt(ps.fields, 0);
    FieldAt(ps.fields, 1);
    FieldAt(ps.fields, 2);
    FieldAt(ps.fields, 3);
    FieldAt(ps.fields, 4);
    FieldAt(ps.fields, 5);
  }

  /** What the results payload asks for. */
  lemma ResultsQueryFields(make: string, model: string, vehicleType: string)
    ensures var p := BuildResultsQuery(make, model, vehicleType);
      && Field(OnlyQuery(p), "operationName") == JStr("SearchResultsQuery")
      && ResultsParameter(p, "make") == JArr([JStr(make)])
      && ResultsParameter(p, "model") == JArr([JStr(model)])
      && ResultsParameter(p, "postcode") == JStr("SE5 8DB")
      && ResultsParameter(p, "advertisingLocations") == JArr([JStr(AdvertisingLocation(vehicleType))])
      && ResultsParameter(p, "pageNumber") == JInt(1)
      && ResultsParameter(p, "pageSize") == JInt(100)
      && Field(Field(OnlyQuery(p), "variables"), "sort") == JStr("relevance")
      && Field(OnlyQuery(p), "query") == JStr(ResultsQueryDocument)
  {
    ResultsQueryShape(make, model, vehicleType);
    SearchParametersFields(make, model, vehicleType);
  }

  /** A makes query and a results query for the same vehicle type search
      the same advertising location. */
  lemma LocationsAgree(vehicleType: string, make: string, model: string)
    requires SafeToken(vehicleType)
    ensures MakesLocations(BuildMakesQuery(vehicleType))
         == ResultsParameter(BuildResultsQuery(make, model, vehicleType), "advertisingLocations")
  {
    MakesPayloadFields(AdvertisingLocation(vehicleType));
    ResultsQueryFields(make, model, vehicleType);
  }

  /** Different searches give different payloads. */
  lemma BuildResultsQueryInjective(make1: string, model1: string, type1: string,
                                   make2: string, model2: string, type2: string)
    requires (make1, model1, type1) != (make2, model2, type2)
    ensures BuildResultsQuery(make1, model1, type1) != BuildResultsQuery(make2, model2, type2)
  {
    ResultsQueryFields(make1, model1, type1);
    ResultsQueryFields(make2, model2, type2);
    if type1 != type2 {
      AdvertisingLocationInjective(type1, type2);
    }
  }

  // ---------------------------------------------------------------------
  // parse_makes
  // ---------------------------------------------------------------------

  /** An entry of the list `parse_makes` returns. */
  datatype MakeOption = MakeOption(value: Json, labelText: string)

  predicate NamedMake(f: Json) {
    HasKey(f, "name") && Lookup(f.fields, "name").value == JStr("make")
  }

  /** The test of the comprehension, `f["name"] == "make"`. */
  function IsMakeFacet(f: Json): (r: Result<bool>)
    ensures r.Ok? <==> HasKey(f, "name")
    ensures r.Ok? ==> (r.value <==> NamedMake(f))
    ensures r.Err? ==> r.fault == (if f.JObj? then KeyError else TypeError)
  {
    var name :- Subscript(f, "name");
    Ok(name == JStr("make"))
  }

  /** `[f for f in facets if f["name"] == "make"]`: the test runs on each
      facet from the first, and the first facet without a name ends the
      comprehension with its exception. */
  function MakeFacets(facets: seq<Json>): (r: Result<seq<Json>>)
    ensures r.Ok? <==> forall k :: 0 <= k < |facets| ==> HasKey(facets[k], "name")
    ensures r.Err? ==> r.fault == KeyError || r.fault == TypeError
    ensures r.Ok? ==> forall x :: x in r.value ==> x in facets && NamedMake(x)
    decreases |facets|
  {
    if facets == [] then Ok([])
    else
      var keep :- IsMakeFacet(facets[0]);
      var rest :- MakeFacets(facets[1..]);
      Ok(if keep then [facets[0]] + rest else rest)
  }

  /** When every facet has a name, the first one kept is the first facet
      named `make`. */
  lemma {:induction false} MakeFacetsFirst(facets: seq<Json>, n: nat)
    requires forall k :: 0 <= k < |facets| ==> HasKey(facets[k], "name")
    requires n < |facets| && NamedMake(facets[n])
    requires forall k :: 0 <= k < n ==> !NamedMake(facets[k])
    ensures MakeFacets(facets).Ok? && MakeFacets(facets).value != []
    ensures MakeFacets(facets).value[0] == facets[n]
    decreases n
  {
    if n > 0 {
      MakeFacetsFirst(facets[1..], n - 1);
    }
  }

  /** When every facet has a name and none is `make`, nothing is kept. */
  lemma {:induction false} MakeFacetsNone(facets: seq<Json>)
    requires forall k :: 0 <= k < |facets| ==> HasKey(facets[k], "name") && !NamedMake(facets[k])
    ensures MakeFacets(facets) == Ok([])
    decreases |facets|
  {
    if facets != [] {
      MakeFacetsNone(facets[1..]);
    }
  }

  /** `{"value": m["value"], "label": f"{m['value']} ({m['count']:,})"}`,
      evaluated left to right: the value, the count, then the grouping of
      the count. */
  function MakeOptionOf(m: Json): (r: Result<MakeOption>)
    ensures r.Ok? <==>
      HasKey(m, "value") && HasKey(m, "count") && FormatThousands(Lookup(m.fields, "count").value).Ok?
    ensures !m.JObj? ==> r == Err(TypeError)
    ensures m.JObj? && !HasKey(m, "value") ==> r == Err(KeyError)
    ensures HasKey(m, "value") && !HasKey(m, "count") ==> r == Err(KeyError)
    ensures r.Ok? ==> r.value.value == Lookup(m.fields, "value").value
    ensures r.Err? ==> r.fault == TypeError || r.fault == KeyError || r.fault == ValueError
  {
    var value :- Subscript(m, "value");
    var count :- Subscript(m, "count");
    var grouped :- FormatThousands(count);
    Ok(MakeOption(value, Str(value) + " (" + grouped + ")"))
  }

  /** A make with an integer count: the label is the make's text, a space
      and the count in parentheses, written with grouping commas that
      leave the count's decimal text once removed. */
  lemma MakeOptionLabel(m: Json, c: int)
    requires HasKey(m, "value") && HasKey(m, "count") && Lookup(m.fields, "count").value == JInt(c)
    ensures MakeOptionOf(m).Ok?
    ensures var v := Lookup(m.fields, "value").value;
      var text := MakeOptionOf(m).value.labelText;
      var g := FormatThousands(JInt(c)).value;
      && text == Str(v) + " (" + g + ")"
      && Strip(g) == IntText(c)
  {
    FormatThousandsStrip(c);
  }

  /** A count given as a string makes the grouping raise ValueError. */
  lemma MakeOptionTextCount(m: Json, s: string)
    requires HasKey(m, "value") && HasKey(m, "count") && Lookup(m.fields, "count").value == JStr(s)
    ensures MakeOptionOf(m) == Err(ValueError)
  {
  }

  /** `[MakeOptionOf(m) for m in makes_data]`. */
  function MakeOptions(ms: seq<Json>): (r: Result<seq<MakeOption>>)
    ensures r.Ok? <==> forall k :: 0 <= k < |ms| ==> MakeOptionOf(ms[k]).Ok?
    ensures r.Ok? ==> |r.value| == |ms|
    ensures r.Ok? ==> forall k :: 0 <= k < |ms| ==> r.value[k] == MakeOptionOf(ms[k]).value
    ensures r.Err? ==> r.fault == TypeError || r.fault == KeyError || r.fault == ValueError
    decreases |ms|
  {
    if ms == [] then Ok([])
    else
      assert forall k :: 0 < k < |ms| ==> ms[1..][k - 1] == ms[k];
      var head :- MakeOptionOf(ms[0]);
      var rest :- MakeOptions(ms[1..]);
      Ok([head] + rest)
  }

  /** The first entry that cannot be turned into an option decides the
      exception. */
  lemma {:induction false} MakeOptionsFirstFault(ms: seq<Json>, n: nat)
    requires n < |ms| && MakeOptionOf(ms[n]).Err?
    requires forall k :: 0 <= k < n ==> MakeOptionOf(ms[k]).Ok?
    ensures MakeOptions(ms) == Err(MakeOptionOf(ms[n]).fault)
    decreases n
  {
    if n > 0 {
      MakeOptionsFirstFault(ms[1..], n - 1);
    }
  }

  /** `parse_makes(data)`: the facets of the first response, the first
      facet named `make`, and an option per entry of its values. */
  function ParseMakes(data: Json): (r: Result<seq<MakeOption>>)
    ensures r.Err? ==> r.fault != AttributeError
  {
    var first :- IndexZero(data);
    var facetList :- SubscriptChain(first, FacetsPath);
    var facets :- Iterate(facetList);
    var makeFacets :- MakeFacets(facets);
    if makeFacets == [] then Err(IndexError)
    else
      var values :- Subscript(makeFacets[0], "values");
      var ms :- Iterate(values);
      MakeOptions(ms)
  }

  /** A response whose facets all have a name, the first `make` facet
      holding a list of values: the options are those of that list, and
      the other facets play no part. */
  lemma ParseMakesFirstMakeFacet(data: Json, facets: seq<Json>, n: nat, ms: seq<Json>)
    requires data.JArr? && data.items != []
    requires HasPath(data.items[0], FacetsPath)
    requires ValueAt(data.items[0], FacetsPath, JNull) == JArr(facets)
    requires forall k :: 0 <= k < |facets| ==> HasKey(facets[k], "name")
    requires n < |facets| && NamedMake(facets[n])
    requires forall k :: 0 <= k < n ==> !NamedMake(facets[k])
    requires HasKey(facets[n], "values") && Lookup(facets[n].fields, "values").value == JArr(ms)
    ensures ParseMakes(data) == MakeOptions(ms)
  {
    MakeFacetsFirst(facets, n);
  }

  /** Without a facet named `make` the subscript `[0]` of the empty
      comprehension raises IndexError. */
  lemma ParseMakesNoMakeFacet(data: Json, facets: seq<Json>)
    requires data.JArr? && data.items != []
    requires HasPath(data.items[0], FacetsPath)
    requires ValueAt(data.items[0], FacetsPath, JNull) == JArr(facets)
    requires forall k :: 0 <= k < |facets| ==> HasKey(facets[k], "name") && !NamedMake(facets[k])
    ensures ParseMakes(data) == Err(IndexError)
  {
    MakeFacetsNone(facets);
  }

  /** An empty response list raises IndexError, and a dict response
      KeyError: `data[0]` fails first. */
  lemma ParseMakesBadResponse(data: Json)
    ensures data == JArr([]) ==> ParseMakes(data) == Err(IndexError)
    ensures data.JObj? ==> ParseMakes(data) == Err(KeyError)
  {
  }

  /** A response whose first element lacks the facets path fails. */
  lemma ParseMakesMissingPath(data: Json)
    requires data.JArr? && data.items != [] && !HasPath(data.items[0], FacetsPath)
    ensures ParseMakes(data).Err?
    ensures ParseMakes(data).fault == KeyError || ParseMakes(data).fault == TypeError
  {
  }

  /** One make with an integer count, as the vendor sends it. */
  const SampleMake: Json :=
    JObj([("name", JStr("BMW")), ("value", JStr("BMW")), ("count", JInt(1234)), ("selected", JBool(false))])

  lemma SampleMakeOption()
    ensures MakeOptionOf(SampleMake) == Ok(MakeOption(JStr("BMW"), "BMW (1,234)"))
  {
    FieldAt(SampleMake.fields, 1);
    FieldAt(SampleMake.fields, 2);
    FormatThousandsOneComma();
    assert "BMW" + " (" + "1,234" + ")" == "BMW (1,234)";
  }

  // ---------------------------------------------------------------------
  // The fetch functions
  // ---------------------------------------------------------------------

  /** A POST request as the client builds it. */
  datatype Request = Request(url: string, headers: seq<(string, string)>, payload: Json, timeout: nat)

  /** The outcome of the exchange: the decoded body of a successful
      response, or one of the failures `requests` reports as a
      RequestException (no connection, a timeout, an error status, a body
      that is not JSON). */
  datatype Exchange = Delivered(body: Json) | RequestFailed

  /** The request of `fetch_car_makes`: the payload for cars, through the
      proxy, whose `url` parameter decodes to the facets endpoint. */
  function MakesRequest(apiKey: string): (r: Request)
    ensures r.payload == MakesTemplate
    ensures var param := Config.AfterLast(r.url, '&');
      |param| >= 4 && param[..4] == "url=" && UrlQuote.Unquote(param[4..]) == Some(UrlQuote.Utf8(Config.FacetsEndpoint))
    ensures r.headers == Config.Headers && r.timeout == 60
  {
    BuildMakesQueryCar();
    Request(Config.ScraperApiUrl(apiKey, Config.FacetsEndpoint), Config.Headers, BuildMakesQuery("car"), 60)
  }

  /** The request of `fetch_listings`: the results payload, through the
      proxy, whose `url` parameter decodes to the listings endpoint. */
  function ListingsRequest(apiKey: string, make: string, model: string, vehicleType: string): (r: Request)
    ensures r.payload == BuildResultsQuery(make, model, vehicleType)
    ensures var param := Config.AfterLast(r.url, '&');
      |param| >= 4 && param[..4] == "url=" && UrlQuote.Unquote(param[4..]) == Some(UrlQuote.Utf8(Config.ListingsEndpoint))
    ensures r.headers == Config.Headers && r.timeout == 5
  {
    Request(Config.ScraperApiUrl(apiKey, Config.ListingsEndpoint), Config.Headers,
            BuildResultsQuery(make, model, vehicleType), 5)
  }

  /** `fetch_car_makes()`: a failed exchange and a KeyError, IndexError or
      TypeError while parsing give an empty list; a ValueError from the
      grouping of a textual count is not caught. */
  function FetchCarMakes(exchange: Exchange): (r: Result<seq<MakeOption>>)
    ensures exchange.RequestFailed? ==> r == Ok([])
    ensures r.Err? ==> r.fault == ValueError
    ensures r.Ok? && r.value != [] ==> exchange.Delivered? && r == ParseMakes(exchange.body)
    ensures exchange.Delivered? && ParseMakes(exchange.body).Ok? ==> r == ParseMakes(exchange.body)
    ensures exchange.Delivered? && ParseMakes(exchange.body).Err? ==>
      r == (if ParseMakes(exchange.body).fault == ValueError then Err(ValueError) else Ok([]))
  {
    match exchange
    case RequestFailed => Ok([])
    case Delivered(body) =>
      match ParseMakes(body)
      case Ok(makes) => Ok(makes)
      case Err(fault) => if fault == ValueError then Err(ValueError) else Ok([])
  }

  /** `fetch_listings(...)`: the decoded body, or an empty list when the
      exchange fails. Returning the body raises nothing, so the second
      handler never runs. */
  function FetchListings(exchange: Exchange): (r: Json)
    ensures exchange.RequestFailed? ==> r == EmptyArr
    ensures exchange.Delivered? ==> r == exchange.body
  {
    match exchange
    case RequestFailed => EmptyArr
    case Delivered(body) => body
  }

  /** A failed exchange yields no listing rows and no facet rows. */
  lemma FailedFetchYieldsNoRows()
    ensures ListingsOf(FetchListings(RequestFailed)) == []
    ensures FacetsOf(FetchListings(RequestFailed)) == []
  {
    ListingsEmptyCases(EmptyArr);
    FacetsEmptyCases(EmptyArr);
  }

  /** A response without the facets path, or without a facet named
      `make`, gives `fetch_car_makes` an empty list. */
  lemma FetchCarMakesNoMakes(data: Json, facets: seq<Json>)
    requires data.JArr? && data.items != []
    ensures !HasPath(data.items[0], FacetsPath) ==> FetchCarMakes(Delivered(data)) == Ok([])
    ensures HasPath(data.items[0], FacetsPath) && ValueAt(data.items[0], FacetsPath, JNull) == JArr(facets)
         && (forall k :: 0 <= k < |facets| ==> HasKey(facets[k], "name") && !NamedMake(facets[k]))
         ==> FetchCarMakes(Delivered(data)) == Ok([])
  {
    if !HasPath(data.items[0], FacetsPath) {
      ParseMakesMissingPath(data);
    } else if ValueAt(data.items[0], FacetsPath, JNull) == JArr(facets)
           && (forall k :: 0 <= k < |facets| ==> HasKey(facets[k], "name") && !NamedMake(facets[k])) {
      ParseMakesNoMakeFacet(data, facets);
    }
  }

  /** The operation the makes payload names is the one the facets
      endpoint's `opname` names. */
  lemma MakesOperationMatchesEndpoint()
    ensures Config.FacetsEndpoint
         == Config.Endpoint("/at-graphql", Field(OnlyQuery(BuildMakesQuery("car")), "operationName").s)
  {
    BuildMakesQueryFields("car");
  }

  /** The results payload names a different operation from the one the
      listings endpoint's `opname` names. */
  lemma ResultsOperationDiffersFromEndpoint(make: string, model: string, vehicleType: string)
    ensures Config.ListingsEndpoint
         != Config.Endpoint("/at-gateway", Field(OnlyQuery(BuildResultsQuery(make, model, vehicleType)), "operationName").s)
  {
    ResultsQueryShape(make, model, vehicleType);
    assert |Config.Endpoint("/at-gateway", "SearchResultsQuery")| != |Config.ListingsEndpoint|;
  }
}
