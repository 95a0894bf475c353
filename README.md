# vroom-data-collection scraper core in Dafny

This project models the deterministic core of a scraper for a car sales site. The scraper sends GraphQL queries through a scraping proxy and turns the JSON answers into flat records. The model covers three files:

- **parser.py.** `parse_listings` and `parse_facets` walk the decoded response with `dict.get` chains and Python truthiness tests. They append one row per advert, or one per facet value, inside `for` loops. One `try/except` keeps the rows collected before the first fault. Both are imperative methods (`Parser.ParseListings`, `Parser.ParseFacets`), each proved equal to a specification function. Lemmas about those functions give the behaviour in the repository's own terms:
  - one row per advert, in order;
  - absent keys give `null` only in the fields that depend on them;
  - a prefix of the ideal rows, cut at the first malformed advert or facet value;
  - the cases that return an empty result.
- **client.py.**
  - `build_makes_query` is `str.replace` on a template, followed by `json.loads`.
  - `build_results_query` is a payload literal.
  - `parse_makes` selects facets with a comprehension, takes `[0]`, and formats labels with `format(count, ",")`.
  - The failure policy of `fetch_car_makes` and `fetch_listings` is modelled over an abstract exchange outcome.
- **config.py.** The endpoint constants, and `get_scraperapi_url`, which wraps a target URL with `urllib.parse.quote`. Quote is percent-encoding as in section 2.1 of RFC 3986. It leaves alone the unreserved characters of section 2.3 plus `/`, and writes uppercase hexadecimal. A percent-decoder is proved to invert it.

Modules:

- `PyJson` (pyjson.dfy): decoded JSON values and the Python operations applied to them. These are truthiness, `dict.get`, `x[k]`, `x[0]` and `for` iteration. Exceptions become `Err` values of a `Result`.
- `Parser` (parser.dfy): both parsers.
- `PyText` (pytext.dfy): the parts of `str()` and `format(x, ",")` used to write labels.
- `UrlQuote` (urlquote.dfy): UTF-8, `quote` and the decoder.
- `Config` (config.dfy): endpoints and the proxy URL.
- `JsonReplace` (jsonreplace.dfy): `str.replace` with the `at_cars` placeholder, and the same replacement applied to every string of a decoded value.
- `Client` (client.dfy): payloads, `parse_makes` and the fetch policy.

parser.py stops at the first malformed advert or facet value and keeps only the rows before it, so one malformed advert also drops every advert after it. The model and its lemmas (`Parser.ListingsStopAtFirstMalformed`, `Parser.FacetsStopAtFirstMalformed`) follow that behaviour.

A decoded JSON object is an ordered sequence of members. This is a deliberate choice over a finite map: a Python dict iterates in insertion order, and `for f in facets` over a dict visits its keys in that order.

The endpoint constants are written in the model as `Config.Endpoint(path, operation)`, which is the site, the path, `?opname=` and the operation. They are the same strings as config.py:11-13.

The makes query names the operation `SearchFormFacetsQuery`, which is also the `opname` of the facets endpoint (`Client.MakesOperationMatchesEndpoint`). The results query names `SearchResultsQuery`, while the listings endpoint's `opname` is `SearchResultsFacetsWithGroupsQuery` (`Client.ResultsOperationDiffersFromEndpoint`). Whether the vendor accepts that difference cannot be decided from the source.

## Model

| member | source | states |
|---|---|---|
| PyJson.DictGet | parser.py:9 | `.get(k, default)` fails with AttributeError exactly on a non-dict; a present key yields its value (even `null`), a missing one the default |
| PyJson.Subscript | client.py:40-41 | `x[k]` succeeds exactly when `x` is a dict with the key; a dict without it raises KeyError, anything else TypeError |
| PyJson.IndexZero | parser.py:9 | `x[0]` yields the first item of a non-empty list and the first character of a non-empty string; an empty list or string raises IndexError, a dict KeyError, `None`, a bool or an int TypeError |
| PyJson.Iterate | parser.py:14-20 | `for` over a list visits its items, over a string its characters in order, over a dict its keys in order; the sequence is empty exactly when the value is falsy; any other value raises TypeError |
| PyJson.GetChain | parser.py:9 | a `.get(k, {})` chain and a final `.get` fail exactly when a value met before the last key is not a dict, and otherwise read the lenient path value |
| PyJson.SubscriptChain | client.py:40 | `x[k1]...[kn]` succeeds exactly when the whole path is present through dicts, then reads the path value; otherwise KeyError or TypeError |
| PyJson.GetThenGet | parser.py:46-47 | two `.get` calls in a row are the two-key chain |
| Parser.RecordsBeforeFault | parser.py:45-64 | the rows satisfy `RowsBeforeFault`: one record per advert before the first failing advert, and nothing past it |
| Parser.RowsBeforeFaultUnique | parser.py:45-64 | the rows before the first fault are uniquely determined |
| Parser.ParseListings | parser.py:34-64 | the loop's rows are the records of the adverts before the first fault, equal to `ListingsOf(raw)` |
| Parser.AdvertRecord | parser.py:46-58 | the body of the loop for one advert, `.get` by `.get`; its meaning is stated by `AdvertRecordMeaning` |
| Parser.AdvertRecordMeaning | parser.py:46-57 | an advert's record succeeds exactly when the advert and each present `vehicle`, `pricing`, `advertPrice`, `advertUrls` are dicts, and then maps id, make, model, derivative, year, price and advert_link from their own paths |
| Parser.PricingChain | parser.py:47-56 | the price chain succeeds exactly when `pricing` and `advertPrice` are each absent or a dict, and reads `displayPrice` at its path |
| Parser.ListingsArePrefixOfIdeal | parser.py:45-64 | never more rows than adverts; each row is the ideal row of the advert at the same position |
| Parser.ListingsStopAtFirstMalformed | parser.py:45-64 | with the first malformed advert at `bad`, the rows are exactly the ideal rows of the adverts before it |
| Parser.ListingsOnePerAdvert | parser.py:45-58 | a well-formed response yields one row per advert, in input order |
| Parser.AdvertItemsOfEnvelope | parser.py:38-39 | the adverts walked are the `data.search.results.adverts` list of a well-formed envelope |
| Parser.ListingsEmptyCases | parser.py:38-64 | no rows for a non-list, an empty list, a non-dict first element, or absent/null/empty adverts |
| Parser.SampleAdvertItems | parser.py:38-39 | a concrete response's adverts list is read through the envelope |
| Parser.SampleAdvertRecord | parser.py:50-57 | a concrete advert without `pricing` maps to its record |
| Parser.MissingPricingKeepsOtherFields | parser.py:46-57 | an advert without `pricing` keeps id, make, model, derivative, year and link, with price `null` |
| Parser.ValueRow | parser.py:20-27 | a value's row succeeds exactly on a dict and then reads name, value, count and selected under the facet's name |
| Parser.ValueRows | parser.py:20-27 | the inner loop yields one row per value in order, complete exactly when every value is a dict, stopping at the first that is not |
| Parser.ValueRowsFaultIsFinal | parser.py:20-31 | once the value walk has faulted, later values change nothing |
| Parser.FacetsScanExtends | parser.py:14-31 | a complete facet walk is extended, never changed, by more facets; a faulted one is final |
| Parser.FacetFaultEndsWalk | parser.py:14-31 | a fault inside facet `i` ends the whole walk with the rows so far |
| Parser.AppendValueRows | parser.py:20-27 | the inner loop's rows and completion flag are the value walk's |
| Parser.ParseFacets | parser.py:5-31 | the nested loops' rows equal `FacetsOf(raw)` |
| Parser.FacetScanMeaning | parser.py:15-27 | one facet's pass completes exactly when the facet is well shaped (a skipped dict, or values a list of dicts), and then yields its ideal rows |
| Parser.FacetsScanWellShaped | parser.py:14-27 | well-shaped facets are walked to the end, facet after facet |
| Parser.FacetsAllRows | parser.py:14-27 | a well-formed response yields one row per value of every non-skipped facet, in facet and value order |
| Parser.FacetsStopAtFirstMalformed | parser.py:14-31 | with the first malformed facet at `bad`, the rows are the facets before it followed by that facet's rows before its first non-dict value |
| Parser.FacetsEmptyCases | parser.py:9-31 | no rows for a non-list, empty list, non-dict first element, or absent/null/empty facets |
| Parser.FacetItemsOfEnvelope | parser.py:9 | the facets walked are the `data.search.adverts.facets` list of a well-formed envelope |
| PyText.DecimalDigits | client.py:43 | `str(n)` of a natural: non-empty digits denoting `n`, no leading zero |
| PyText.DecimalDigitsOfValue | client.py:43 | every digit string without a leading zero is `str` of its value |
| PyText.IntText | client.py:43 | `str(i)`: a minus sign exactly for negatives, then the digits of the magnitude |
| PyText.IntTextValue | client.py:43 | reading `str(i)` back gives `i` |
| PyText.GroupedStrip | client.py:43 | removing the commas from the grouped digits gives the digits |
| PyText.GroupedCommas | client.py:43 | commas sit exactly every fourth place from the right, so the first group has 1-3 digits and every later group 3 |
| PyText.FormatThousands | client.py:43 | `format(x, ",")` succeeds exactly on ints and bools; a string raises ValueError; null, list and dict raise TypeError |
| PyText.FormatThousandsStrip | client.py:43 | removing the commas of `format(i, ",")` gives `str(i)` |
| PyText.FormatThousandsCommas | client.py:43 | the sign is present exactly for negatives and the commas group the digits in threes from the right |
| PyText.FormatThousandsRoundTrip | client.py:43 | the comma-free text of `format(i, ",")` reads back as `i` |
| PyText.FormatThousandsSmall | client.py:43 | 7 is written `7`: no separator below a thousand |
| PyText.FormatThousandsOneComma | client.py:43 | 1234 is written `1,234` |
| PyText.FormatThousandsNegative | client.py:43 | -12345 is written `-12,345` |
| PyText.Str | client.py:43 | `str(x)` of a string is itself, of an int its decimal text, of null `None`, of a bool `True`/`False` |
| UrlQuote.EncodeChar | config.py:23 | a character's UTF-8 encoding has 1-4 bytes, one exactly for ASCII, and only bytes of 128 or more otherwise |
| UrlQuote.DecodeEncodeChar | config.py:23 | decoding a character's UTF-8 bytes gives the character |
| UrlQuote.QuoteByte | config.py:23 | a safe byte is written as itself, any other as `%` and two uppercase hex digits |
| UrlQuote.Quote | config.py:23 | `quote` on the target's bytes, one byte at a time with `QuoteByte`; its meaning is stated by `UnquoteQuote`, `QuoteAlphabet`, `QuoteLength` and `QuoteSafeText` |
| UrlQuote.UnquoteQuote | config.py:23 | percent-decoding `quote`'s text gives back the bytes |
| UrlQuote.QuoteLength | config.py:23 | the text has one character per safe byte and three per other byte |
| UrlQuote.QuoteAlphabet | config.py:23-24 | the text holds only safe characters, `%` and hex digits, and never `?`, `&`, `=` or `:` |
| UrlQuote.QuoteSafeText | config.py:23 | ASCII letters, digits, `_ . - ~` and `/` are left unchanged |
| UrlQuote.QuoteConcat | config.py:23 | quoting distributes over concatenation |
| Config.ScraperApiUrl | config.py:21-24 | whatever the key, the proxy URL is the keyed prefix and one last parameter, `url=` followed by text that percent-decodes to the target's UTF-8 bytes |
| Config.QuoteEndpoint | config.py:11-23 | a vendor endpoint is quoted with only its `:`, `?` and `=` escaped |
| Config.FacetsEndpointQuoted | config.py:11-23 | the facets endpoint quotes to `https%3A//www.autotrader.co.uk/at-graphql%3Fopname%3DSearchFormFacetsQuery` |
| JsonReplace.ReplaceAll | client.py:33-35 | `str.replace`, scanning from the left without overlaps; its meaning is stated by `ReplaceAbsent` and `ReplaceWhole` |
| JsonReplace.Subst | client.py:33-36 | the replacement on every string, keys included, of the decoded template; its meaning is stated by `SubstObj4` and `SubstMakesPayload` |
| JsonReplace.ReplaceAbsent | client.py:33-35 | `str.replace` leaves a string without the pattern unchanged |
| JsonReplace.ReplaceWhole | client.py:33-35 | the pattern itself is replaced by the replacement |
| JsonReplace.NoTUAbsent | client.py:33 | text with no `t_` has no `at_cars` in it |
| Client.MakesDocumentNoTU | client.py:33 | the query document of the template has no `at_cars` in it |
| JsonReplace.SubstObj4 | client.py:33-36 | replacing in a decoded object whose keys have no placeholder replaces in its values only, member by member and in order |
| Client.SubstAdvertQuery | client.py:33-34 | in the advert query only the advertising location changes |
| Client.SubstOperation | client.py:33-34 | an operation whose name and document have no placeholder keeps both; only its variables change |
| Client.SubstMakesPayload | client.py:33-36 | replacing `at_cars` in the template's strings changes only the advertising location |
| Client.BuildMakesQuery | client.py:31-36 | the decoded payload is the template with the location `at_<vehicle_type>s` |
| Client.BuildMakesQueryCar | client.py:9-34 | for `car` the payload is the template itself |
| Client.BuildMakesQueryInjective | client.py:33-36 | different vehicle types give different payloads |
| Client.MakesPayloadFields | client.py:33 | the payload's operation name, location, classification, postcode, home delivery, facets and document |
| Client.BuildMakesQueryFields | client.py:33-36 | the location is `at_<vt>s` and every other member is the template's |
| Client.AdvertisingLocation | client.py:81 | `at_`, the vehicle type, `s`: the type can be read back from the location |
| Client.AdvertisingLocationInjective | client.py:81 | different vehicle types give different locations |
| Client.BuildResultsQuery | client.py:69-121 | the payload literal of `build_results_query`; what it holds is stated by `ResultsQueryShape` and `ResultsQueryFields` |
| Client.ResultsQueryFields | client.py:73-119 | the results payload's operation name, make, model, postcode, location, page number 1, page size 100, sort and document |
| Client.LocationsAgree | client.py:33-81 | the makes and results payloads for one vehicle type search the same location |
| Client.BuildResultsQueryInjective | client.py:73-86 | different searches give different payloads |
| Client.IsMakeFacet | client.py:41 | the name test succeeds exactly on a dict with `name`, and is true exactly when the name is `"make"` |
| Client.MakeFacets | client.py:41 | the comprehension succeeds exactly when every facet has a name, and keeps only facets named `make`, taken from the facets |
| Client.MakeFacetsFirst | client.py:41 | the first facet kept is the first facet named `make` |
| Client.MakeFacetsNone | client.py:41 | with no facet named `make`, nothing is kept |
| Client.MakeOptionOf | client.py:43 | an option succeeds exactly when `value` and `count` are present and the count can be formatted; it carries the make's value |
| Client.MakeOptionLabel | client.py:43 | the label is the value's text, ` (`, the grouped count and `)`, and the grouped count without commas is `str(count)` |
| Client.MakeOptionTextCount | client.py:43 | a string count raises ValueError |
| Client.MakeOptions | client.py:42-45 | one option per entry of `values`, in order, or the failure of an entry |
| Client.MakeOptionsFirstFault | client.py:42-45 | the first failing entry decides the exception |
| Client.ParseMakes | client.py:38-46 | `parse_makes` never raises AttributeError |
| Client.ParseMakesFirstMakeFacet | client.py:40-45 | when the facets all have names, the options are those of the first facet named `make` only |
| Client.ParseMakesNoMakeFacet | client.py:41 | with no facet named `make`, `[0]` raises IndexError |
| Client.ParseMakesMissingPath | client.py:40 | a missing facets path raises KeyError or TypeError |
| Client.ParseMakesBadResponse | client.py:40 | an empty top-level list raises IndexError and a dict KeyError |
| Client.SampleMakeOption | client.py:43 | a BMW entry with count 1234 is labelled `BMW (1,234)` |
| Client.MakesRequest | client.py:10-19 | the makes request posts the template for cars with the JSON header and a 60 s timeout, to a proxy URL whose `url` parameter decodes to the facets endpoint |
| Client.ListingsRequest | client.py:50-59 | the listings request posts the results payload with the JSON header and a 5 s timeout, to a proxy URL whose `url` parameter decodes to the listings endpoint |
| Client.FetchCarMakes | client.py:7-29 | a failed exchange gives `[]`; a parse ValueError escapes as ValueError and any other parse fault gives `[]`; a successful parse is returned |
| Client.FetchCarMakesNoMakes | client.py:24-41 | a response without the facets path or without a make facet gives `[]` |
| Client.FetchListings | client.py:48-67 | a failed exchange gives `[]`, otherwise the decoded body unchanged |
| Client.FailedFetchYieldsNoRows | client.py:62-64 | the `[]` of a failed fetch gives no listing rows and no facet rows |
| Client.MakesOperationMatchesEndpoint | client.py:33 | the makes payload's operation is the facets endpoint's `opname` |
| Client.ResultsOperationDiffersFromEndpoint | client.py:75 | the results payload's operation differs from the listings endpoint's `opname` |

## Left out

- Duplicate keys: a decoded object is an ordered sequence of members and `Lookup` takes the first member with a key, while `json.loads` keeps the last. The model assumes the distinct keys that the vendor's responses and the payload templates have.
- run_autotrader.py is not part of this model. It is the driver: DataFrames, the test mode, CSV output and the make and model loop.
- The HTTP exchange is not modelled. This covers `requests.post`, `raise_for_status`, `response.json()` and the proxy service. `Client.Exchange` stands for its outcome: a decoded body, or any RequestException. The timeouts of 60 and 5 seconds appear only as data in `Client.Request`.
- An undecodable body counts as a failed exchange. `response.json()` reports it as a `RequestException` subclass in requests 2.27 and later.
- `load_dotenv`, `os.getenv` and the import-time `assert` on the key are not modelled, because they read the environment. The API key is a parameter.
- Logging and `print` calls are left out: they do not affect results.
- `pd.DataFrame` wrapping is not modelled. The parsers return sequences of rows whose fields are listed in column order.
- `json.loads` is not modelled as a text parser. `Client.BuildMakesQuery` takes the decoded template as given and applies the replacement to its decoded strings and keys. Its precondition `SafeToken` (no `"`, `\` or control character in the vehicle type) is what makes that equal to replacing in the JSON text and then parsing.
- The GraphQL documents are constant strings. For the makes document, the model proves only that the placeholder does not occur in it.
- PyText.Str: writes lists and dicts as `repr` would, but strings nested inside them are quoted with `'` and no escaping, unlike Python's `repr`.
- Non-integer counts are not modelled, because the JSON datatype has no floats. For a string count the model raises ValueError, as Python does.
- Parser.ParseFacets: the inner `for` over a facet's values is the separate method `Parser.AppendValueRows`, which the outer loop calls.
- Client.FetchListings: the `except (KeyError, IndexError, TypeError)` branch of `fetch_listings` is not modelled, since returning the decoded body raises none of them.
