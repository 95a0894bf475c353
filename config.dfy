/** config.py: the vendor endpoints and the proxy URL that wraps a target
    URL for the scraping proxy. The API key, which config.py reads from the
    environment, is a parameter here. */
module Config {
  import opened PyJson
  import opened UrlQuote

  const Site: string := "https://www.autotrader.co.uk"

  /** A vendor endpoint: the site, a path and the `opname` parameter naming
      the GraphQL operation. */
  function Endpoint(path: string, operation: string): string {
    Site + path + "?opname=" + operation
  }

  const FacetsEndpoint: string := Endpoint("/at-graphql", "SearchFormFacetsQuery")
  const ListingsEndpoint: string := Endpoint("/at-gateway", "SearchResultsFacetsWithGroupsQuery")
  const DetailsEndpoint: string := Endpoint("/at-graphql", "VehicleDetailsQuery")
  const ScraperApiEndpoint: string := "https://api.scraperapi.com"

  /** The request headers sent with every call. */
  const Headers: seq<(string, string)> := [("Content-Type", "application/json")]

  /** The part of the URL before the encoded target. */
  function ProxyPrefix(apiKey: string): string {
    ScraperApiEndpoint + "?api_key=" + apiKey
  }

  /** `get_scraperapi_url(target)`: the proxy endpoint, the key and the
      percent-encoded target as the `url` query parameter. Whatever the
      key, the URL is the keyed prefix and one last parameter, `url=`
      followed by text that percent-decodes to the target's UTF-8 bytes:
      the encoded target has no `&` of its own. */
  function ScraperApiUrl(apiKey: string, target: string): (r: string)
    ensures var param := AfterLast(r, '&');
      && r == ProxyPrefix(apiKey) + "&" + param
      && |param| >= 4 && param[..4] == "url="
      && Unquote(param[4..]) == Some(Utf8(target))
  {
    EncodedParameter(ProxyPrefix(apiKey), target);
    ScraperApiEndpoint + "?api_key=" + apiKey + "&url=" + Quote(Utf8(target))
  }

  /** The text after the last occurrence of `c`, or all of `s` when `c`
      does not occur: the last parameter of a query string when `c` is
      `&`. */
  function AfterLast(s: string, c: char): string
    decreases |s|
  {
    if s == [] then []
    else if s[|s| - 1] == c then []
    else AfterLast(s[..|s| - 1], c) + [s[|s| - 1]]
  }

  lemma {:induction false} AfterLastNotOccurring(a: string, c: char, b: string)
    requires forall k :: 0 <= k < |b| ==> b[k] != c
    ensures AfterLast(a + [c] + b, c) == b
    decreases |b|
  {
    if b == [] {
      assert a + [c] + b == a + [c];
    } else {
      var front := b[..|b| - 1];
      assert (a + [c] + b)[..|a + [c] + b| - 1] == a + [c] + front;
      AfterLastNotOccurring(a, c, front);
      assert front + [b[|b| - 1]] == b;
    }
  }

  /** A percent-encoded target put last, as `url=`, after `prefix`. */
  lemma EncodedParameter(prefix: string, target: string)
    ensures var param := "url=" + Quote(Utf8(target));
      && AfterLast(prefix + "&url=" + Quote(Utf8(target)), '&') == param
      && prefix + "&url=" + Quote(Utf8(target)) == prefix + "&" + param
      && Unquote(param[4..]) == Some(Utf8(target))
  {
    var q := Quote(Utf8(target));
    QuoteAlphabet(Utf8(target));
    UnquoteQuote(Utf8(target));
    var b := "url=" + q;
    assert forall k :: 0 <= k < |b| ==> b[k] != '&' by {
      forall k | 0 <= k < |b| ensures b[k] != '&' {
        if k >= 4 {
          assert b[k] == q[k - 4];
        }
      }
    }
    assert prefix + "&url=" + q == prefix + ['&'] + b;
    AfterLastNotOccurring(prefix, '&', b);
    assert b[4..] == q;
  }

  /** The escapes of the URL delimiters `:`, `?` and `=`. */
  lemma DelimiterEscapes()
    ensures QuoteByte(':' as int) == "%3A"
    ensures QuoteByte('?' as int) == "%3F"
    ensures QuoteByte('=' as int) == "%3D"
  {
    assert ':' as int == 58 && '?' as int == 63 && '=' as int == 61;
    assert QuoteByte(58) == "%3A";
    assert QuoteByte(63) == "%3F";
    assert QuoteByte(61) == "%3D";
  }

  /** `scheme:host path?name=value` as `quote` writes it, when the pieces
      are safe: only the `:`, `?` and `=` are escaped. */
  lemma QuoteUrlShape(scheme: string, host: string, path: string, name: string, value: string)
    requires SafeText(scheme) && SafeText(host) && SafeText(path) && SafeText(name) && SafeText(value)
    ensures Quote(Utf8(scheme + [':'] + host + path + ['?'] + name + ['='] + value))
      == scheme + "%3A" + host + path + "%3F" + name + "%3D" + value
  {
    DelimiterEscapes();
    var s1 := scheme + [':'];
    QuoteSafeText(scheme);
    QuoteAppendChar(scheme, ':');
    var q1 := scheme + "%3A";
    assert Quote(Utf8(s1)) == q1;
    var s2 := s1 + host;
    QuoteAppendSafe(s1, host);
    var s3 := s2 + path;
    QuoteAppendSafe(s2, path);
    var q3 := q1 + host + path;
    assert Quote(Utf8(s3)) == q3;
    var s4 := s3 + ['?'];
    QuoteAppendChar(s3, '?');
    var s5 := s4 + name;
    QuoteAppendSafe(s4, name);
    var q5 := q3 + "%3F" + name;
    assert Quote(Utf8(s5)) == q5;
    var s6 := s5 + ['='];
    QuoteAppendChar(s5, '=');
    QuoteAppendSafe(s6, value);
    assert Quote(Utf8(s6 + value)) == q5 + "%3D" + value;
  }

  /** The site and the `opname` parameter split at the characters `quote`
      escapes. */
  lemma EndpointPieces()
    ensures Site == "https" + [':'] + "//www.autotrader.co.uk"
    ensures "?opname=" == ['?'] + "opname" + ['=']
  {
  }

  /** The pieces between the escaped characters are safe. */
  lemma EndpointPiecesSafe()
    ensures SafeText("https") && SafeText("//www.autotrader.co.uk") && SafeText("opname")
  {
    var host := "//www.autotrader.co.uk";
    assert forall k :: 0 <= k < |host| ==> host[k] == '/' || host[k] == '.' || 'a' <= host[k] <= 'z';
  }

  /** An endpoint as `quote` writes it: only the `:` of the scheme and the
      `?` and `=` of the query are escaped. */
  lemma QuoteEndpoint(path: string, operation: string)
    requires SafeText(path) && SafeText(operation)
    ensures Quote(Utf8(Endpoint(path, operation)))
      == "https" + "%3A" + "//www.autotrader.co.uk" + path + "%3F" + "opname" + "%3D" + operation
  {
    var scheme, host, name := "https", "//www.autotrader.co.uk", "opname";
    EndpointPieces();
    EndpointPiecesSafe();
    assert Endpoint(path, operation) == scheme + [':'] + host + path + ['?'] + name + ['='] + operation;
    QuoteUrlShape(scheme, host, path, name, operation);
  }

  /** The facets endpoint as `quote` writes it. */
  lemma FacetsEndpointQuoted()
    ensures Quote(Utf8(FacetsEndpoint))
      == "https" + "%3A" + "//www.autotrader.co.uk" + "/at-graphql" + "%3F" + "opname" + "%3D" + "SearchFormFacetsQuery"
  {
    QuoteEndpoint("/at-graphql", "SearchFormFacetsQuery");
  }
}
