/** The state search box: the labels under which places are listed and
    headed, the guard and the country filter of `search`, and the selection
    handler that writes the chosen place back into the query. */
module StateSearch {
  import opened JsValues
  import opened Types
  import App

  /** The separator of `join(', ')`. */
  const Comma: string := ", "

  /** `parts.filter(Boolean)`: the truthy (present and non-empty) parts, in order. */
  function Truthies(parts: seq<Option<string>>): (r: seq<string>)
    ensures |r| <= |parts|
    ensures forall i :: 0 <= i < |r| ==> r[i] != ""
    ensures forall x :: x in r <==> exists i :: 0 <= i < |parts| && Truthy(parts[i]) && parts[i].value == x
  {
    if parts == [] then []
    else
      var rest := Truthies(parts[1..]);
      assert forall i :: 1 <= i < |parts| ==> parts[i] == parts[1..][i - 1];
      if Truthy(parts[0]) then [parts[0].value] + rest else rest
  }

  /** `xs.join(sep)`. */
  function Join(xs: seq<string>, sep: string): (r: string)
    ensures xs == [] ==> r == ""
    ensures xs != [] ==> xs[0] <= r
    ensures xs != [] ==> |xs[|xs| - 1]| <= |r| && r[|r| - |xs[|xs| - 1]|..] == xs[|xs| - 1]
  {
    if |xs| == 0 then ""
    else if |xs| == 1 then xs[0]
    else
      var init := Join(xs[..|xs| - 1], sep);
      var last := xs[|xs| - 1];
      var lead := init + sep;
      assert xs[..|xs| - 1][0] == xs[0];
      PrefixOfAppend(init, sep);
      PrefixOfAppend(lead, last);
      PrefixTransitive(xs[0], init, lead);
      PrefixTransitive(xs[0], lead, lead + last);
      assert (lead + last)[|lead|..] == last;
      lead + last
  }

  /** A string is a prefix of itself followed by anything. */
  lemma PrefixOfAppend(x: string, y: string)
    ensures x <= x + y
  {
    assert (x + y)[..|x|] == x;
  }

  /** A prefix of a prefix is a prefix. */
  lemma PrefixTransitive(x: string, y: string, z: string)
    requires x <= y && y <= z
    ensures x <= z
  {
    assert z[..|y|][..|x|] == z[..|x|];
  }

  /** Joining one more part appends the separator and the part. */
  lemma JoinSnoc(xs: seq<string>, x: string, sep: string)
    requires xs != []
    ensures Join(xs + [x], sep) == Join(xs, sep) + sep + x
  {
    assert (xs + [x])[..|xs|] == xs;
  }

  /** The parts a place is listed under: name, region and country. */
  function Parts(p: Place): seq<Option<string>> {
    [p.name, p.admin1, p.country]
  }

  /** `ResultItem`'s label: the truthy parts of the place joined by ', '. It is
      empty exactly when no part is truthy, begins with the name when the name is
      truthy and ends with the country when the country is truthy. */
  function Label(p: Place): (r: string)
    ensures r == "" <==> !Truthy(p.name) && !Truthy(p.admin1) && !Truthy(p.country)
    ensures Truthy(p.name) ==> p.name.value <= r
    ensures Truthy(p.country) ==> |p.country.value| <= |r| && r[|r| - |p.country.value|..] == p.country.value
  {
    var segments := Truthies(Parts(p));
    TruthiesOfParts(p);
    Join(segments, Comma)
  }

  /** The truthy parts of a place, spelled out case by case. */
  lemma TruthiesOfParts(p: Place)
    ensures Truthies(Parts(p)) ==
      (if Truthy(p.name) then [p.name.value] else []) +
      (if Truthy(p.admin1) then [p.admin1.value] else []) +
      (if Truthy(p.country) then [p.country.value] else [])
  {
    var parts := Parts(p);
    assert parts[1..] == [p.admin1, p.country];
    assert parts[1..][1..] == [p.country];
    assert parts[1..][1..][1..] == [];
    TruthiesCons(parts);
    TruthiesCons(parts[1..]);
    TruthiesCons(parts[1..][1..]);
  }

  /** Filtering a non-empty list: the first part if truthy, then the rest filtered. */
  lemma TruthiesCons(parts: seq<Option<string>>)
    requires parts != []
    ensures Truthies(parts) == (if Truthy(parts[0]) then [parts[0].value] else []) + Truthies(parts[1..])
  {
    if !Truthy(parts[0]) {
      assert [] + Truthies(parts[1..]) == Truthies(parts[1..]);
    }
  }

  /** `WeatherCard`'s header: empty without a place, otherwise the same
      composition as the result label. */
  function Header(place: Option<Place>): (r: string)
    ensures place.None? ==> r == ""
    ensures place.Some? ==> r == Label(place.value)
  {
    match place
    case None => ""
    case Some(p) => Label(p)
  }

  /** Two parts join around one separator. */
  lemma JoinTwo(x: string, y: string, sep: string)
    ensures Join([x, y], sep) == x + sep + y
  {
    assert [x, y][..1] == [x];
  }

  /** Three parts join around two separators. */
  lemma JoinThree(x: string, y: string, z: string, sep: string)
    ensures Join([x, y, z], sep) == x + sep + y + sep + z
  {
    assert [x, y, z][..2] == [x, y];
    JoinTwo(x, y, sep);
  }

  /** A place with name, region and country lists as `name, region, country`. */
  lemma FullLabel(p: Place)
    requires Truthy(p.name) && Truthy(p.admin1) && Truthy(p.country)
    ensures Label(p) == p.name.value + Comma + p.admin1.value + Comma + p.country.value
  {
    TruthiesOfParts(p);
    var n, a, c := p.name.value, p.admin1.value, p.country.value;
    assert [n] + [a] + [c] == [n, a, c];
    JoinThree(n, a, c, Comma);
  }

  /** A missing region is skipped without leaving an empty segment behind. */
  lemma LabelSkipsMissingRegion(p: Place)
    requires Truthy(p.name) && !Truthy(p.admin1) && Truthy(p.country)
    ensures Label(p) == p.name.value + Comma + p.country.value
  {
    TruthiesOfParts(p);
    var n, c := p.name.value, p.country.value;
    assert [n] + [] + [c] == [n, c];
    JoinTwo(n, c, Comma);
  }

  /** JavaScript's white space and line terminators, the characters `trim`
      removes: tab, line feed, vertical tab, form feed, carriage return, space,
      no-break space, the other space separators of Unicode, the line and
      paragraph separators, and the byte order mark. */
  predicate IsJsSpace(c: char) {
    c == '\t' || c == '\n' || c == '\U{000B}' || c == '\U{000C}' || c == '\r' || c == ' ' ||
    c == '\U{00A0}' || c == '\U{1680}' || ('\U{2000}' <= c <= '\U{200A}') ||
    c == '\U{2028}' || c == '\U{2029}' || c == '\U{202F}' || c == '\U{205F}' ||
    c == '\U{3000}' || c == '\U{FEFF}'
  }

  /** Drops leading white space: what is left is a suffix of `s` not starting with white space. */
  function TrimStart(s: string): (r: string)
    ensures |r| <= |s|
    ensures r == [] || !IsJsSpace(r[0])
  {
    if s != [] && IsJsSpace(s[0]) then TrimStart(s[1..]) else s
  }

  /** Drops trailing white space: what is left is a prefix of `s` not ending with white space. */
  function TrimEnd(s: string): (r: string)
    ensures |r| <= |s|
    ensures r == [] || !IsJsSpace(r[|r| - 1])
  {
    if s != [] && IsJsSpace(s[|s| - 1]) then TrimEnd(s[..|s| - 1]) else s
  }

  /** What `TrimStart` keeps is a suffix of its input. */
  lemma {:induction false} TrimStartIsSuffix(s: string)
    ensures TrimStart(s) == s[|s| - |TrimStart(s)|..]
  {
    if s != [] && IsJsSpace(s[0]) {
      TrimStartIsSuffix(s[1..]);
      assert s[1..][|s| - 1 - |TrimStart(s)|..] == s[|s| - |TrimStart(s)|..];
    }
  }

  /** What `TrimEnd` keeps is a prefix of its input. */
  lemma {:induction false} TrimEndIsPrefix(s: string)
    ensures TrimEnd(s) == s[..|TrimEnd(s)|]
  {
    if s != [] && IsJsSpace(s[|s| - 1]) {
      TrimEndIsPrefix(s[..|s| - 1]);
      assert s[..|s| - 1][..|TrimEnd(s)|] == s[..|TrimEnd(s)|];
    }
  }

  /** Everything `TrimStart` drops is white space. */
  lemma {:induction false} TrimStartDropsSpaces(s: string)
    ensures forall k :: 0 <= k < |s| - |TrimStart(s)| ==> IsJsSpace(s[k])
  {
    if s != [] && IsJsSpace(s[0]) {
      TrimStartDropsSpaces(s[1..]);
      forall k | 1 <= k < |s| - |TrimStart(s)|
        ensures IsJsSpace(s[k])
      {
        assert s[k] == s[1..][k - 1];
      }
    }
  }

  /** Everything `TrimEnd` drops is white space. */
  lemma {:induction false} TrimEndDropsSpaces(s: string)
    ensures forall k :: |TrimEnd(s)| <= k < |s| ==> IsJsSpace(s[k])
  {
    if s != [] && IsJsSpace(s[|s| - 1]) {
      TrimEndDropsSpaces(s[..|s| - 1]);
      forall k | |TrimEnd(s)| <= k < |s| - 1
        ensures IsJsSpace(s[k])
      {
        assert s[k] == s[..|s| - 1][k];
      }
    }
  }

  /** `s.trim()`: what is left once leading and trailing white space are
      dropped; neither of its ends is white space. */
  function Trim(s: string): (r: string)
    ensures |r| <= |s|
    ensures r == [] || (!IsJsSpace(r[0]) && !IsJsSpace(r[|r| - 1]))
  {
    TrimEndIsPrefix(TrimStart(s));
    TrimEnd(TrimStart(s))
  }

  /** How many characters of leading white space `s` has. */
  function LeadingSpaces(s: string): nat {
    |s| - |TrimStart(s)|
  }

  /** The trimmed string is the slice of `s` between its leading and its
      trailing white space. */
  lemma TrimIsSlice(s: string)
    ensures LeadingSpaces(s) + |Trim(s)| <= |s|
    ensures Trim(s) == s[LeadingSpaces(s)..LeadingSpaces(s) + |Trim(s)|]
    ensures forall k :: 0 <= k < LeadingSpaces(s) ==> IsJsSpace(s[k])
    ensures forall k :: LeadingSpaces(s) + |Trim(s)| <= k < |s| ==> IsJsSpace(s[k])
  {
    var t := TrimStart(s);
    var r := TrimEnd(t);
    TrimStartDropsSpaces(s);
    TrimEndDropsSpaces(t);
    TrimStartIsSuffix(s);
    TrimEndIsPrefix(t);
    SliceOfSuffix(s, t, r);
    TrailingOfSuffix(s, t, r);
  }

  /** A prefix `r` of the suffix `t` of `s` is a slice of `s`. */
  lemma SliceOfSuffix(s: string, t: string, r: string)
    requires |t| <= |s| && t == s[|s| - |t|..]
    requires |r| <= |t| && r == t[..|r|]
    ensures r == s[|s| - |t|..|s| - |t| + |r|]
  {
  }

  /** White space after `r` in `t` is white space after it in `s`. */
  lemma TrailingOfSuffix(s: string, t: string, r: string)
    requires |t| <= |s| && t == s[|s| - |t|..]
    requires |r| <= |t| && forall k :: |r| <= k < |t| ==> IsJsSpace(t[k])
    ensures forall k :: |s| - |t| + |r| <= k < |s| ==> IsJsSpace(s[k])
  {
    var i := |s| - |t|;
    forall k | i + |r| <= k < |s|
      ensures IsJsSpace(s[k])
    {
      assert s[k] == t[k - i];
    }
  }

  /** A string without white space at either end is its own trim. */
  lemma {:induction false} TrimKeepsInnerText(s: string)
    requires s == [] || (!IsJsSpace(s[0]) && !IsJsSpace(s[|s| - 1]))
    ensures Trim(s) == s
  {
  }

  /** Trimming twice is trimming once. */
  lemma TrimIdempotent(s: string)
    ensures Trim(Trim(s)) == Trim(s)
  {
    TrimKeepsInnerText(Trim(s));
  }

  /** The guard of `search`: an empty query, or one with fewer than two
      characters once trimmed, is not searched for. */
  predicate Blocked(q: string)
    ensures Blocked(q) <==> |Trim(q)| < 2
  {
    q == "" || |Trim(q)| < 2
  }

  /** A query that passes the guard is at least two characters long as typed. */
  lemma PassedQueryIsLong(q: string)
    requires !Blocked(q)
    ensures |q| >= 2
  {
  }

  /** Padding a query with white space changes nothing about whether it is searched. */
  lemma GuardIgnoresPadding(q: string)
    ensures Blocked(q) <==> Blocked(Trim(q))
  {
    TrimIdempotent(q);
  }

  /** The query string sent to the geocoder's search endpoint. */
  datatype SearchRequest = SearchRequest(name: string, country: string, count: string, language: string, format: string)

  /** The request for a query that passed the guard: the trimmed query, ten
      results at most, restricted to India, in English, as JSON. */
  function RequestFor(q: string): (r: SearchRequest)
    ensures r.name == Trim(q) && r.country == "IN" && r.count == "10"
    ensures r.language == "en" && r.format == "json"
  {
    SearchRequest(Trim(q), "IN", "10", "en", "json")
  }

  /** `r.country_code === 'IN'`. */
  predicate InIndia(p: Place) {
    p.countryCode == Some("IN")
  }

  /** The results kept from a list, in their original order. */
  function KeepIndian(results: seq<Place>): (r: seq<Place>)
    ensures |r| <= |results|
    ensures forall p :: p in r <==> p in results && InIndia(p)
  {
    if results == [] then []
    else
      var rest := KeepIndian(results[1..]);
      assert forall p :: p in results <==> p == results[0] || p in results[1..];
      if InIndia(results[0]) then [results[0]] + rest else rest
  }

  /** `(json.results || []).filter((r) => r.country_code === 'IN')`. */
  function FilterIndia(results: Option<seq<Place>>): (r: seq<Place>)
    ensures results.None? ==> r == []
    ensures forall p :: p in r <==> results.Some? && p in results.value && InIndia(p)
  {
    KeepIndian(results.GetOr([]))
  }

  /** Filtering keeps the order: it distributes over concatenation. */
  lemma {:induction false} KeepIndianAppend(xs: seq<Place>, ys: seq<Place>)
    ensures KeepIndian(xs + ys) == KeepIndian(xs) + KeepIndian(ys)
  {
    if xs == [] {
      assert xs + ys == ys;
    } else {
      assert (xs + ys)[1..] == xs[1..] + ys;
      KeepIndianAppend(xs[1..], ys);
    }
  }

  /** Filtering an already filtered list changes nothing. */
  lemma {:induction false} KeepIndianIdempotent(xs: seq<Place>)
    ensures KeepIndian(KeepIndian(xs)) == KeepIndian(xs)
  {
    if xs != [] {
      KeepIndianIdempotent(xs[1..]);
      if InIndia(xs[0]) {
        assert ([xs[0]] + KeepIndian(xs[1..]))[1..] == KeepIndian(xs[1..]);
      }
    }
  }

  /** The query written back on selection:
      `${it.name}${it.admin1 ? `, ${it.admin1}` : ''}`. */
  function SelectionQuery(it: Place): (r: string)
    ensures TemplateText(it.name) <= r
    ensures Truthy(it.admin1) ==> r[|TemplateText(it.name)|..] == Comma + it.admin1.value
    ensures !Truthy(it.admin1) ==> r == TemplateText(it.name)
  {
    var lead := TemplateText(it.name);
    var tail := if Truthy(it.admin1) then Comma + it.admin1.value else "";
    var r := lead + tail;
    assert r[..|lead|] == lead && r[|lead|..] == tail;
    r
  }

  /** For a place with a name, the text written back on selection is the start
      of the label it was listed under. */
  lemma SelectionQueryLeadsLabel(it: Place)
    requires Truthy(it.name)
    ensures SelectionQuery(it) <= Label(it)
  {
    TruthiesOfParts(it);
    var n := it.name.value;
    var q := SelectionQuery(it);
    if Truthy(it.admin1) {
      var a := it.admin1.value;
      assert q == n + Comma + a;
      if Truthy(it.country) {
        assert [n] + [a] + [it.country.value] == [n, a, it.country.value];
        JoinThree(n, a, it.country.value, Comma);
        PrefixOfAppend(n + Comma + a, Comma + it.country.value);
      } else {
        assert [n] + [a] + [] == [n, a];
        JoinTwo(n, a, Comma);
      }
    } else if Truthy(it.country) {
      assert q == n;
    } else {
      assert [n] + [] + [] == [n];
    }
  }

  /** The page title of a resolved place with a name starts with what selecting
      that place writes into the search box. */
  lemma TitleExtendsSelectionQuery(p: Place)
    requires Truthy(p.name)
    ensures App.HeaderTitle(Some(p)) == SelectionQuery(p) + App.CountrySeparator + TemplateText(p.country)
  {
  }

  /** A place without a name is written back as the text "undefined". */
  lemma UnnamedSelectionExample()
    ensures SelectionQuery(Place(None, Some("Goa"), Some("India"), Some("IN"))) == "undefined, Goa"
  {
  }

  /** When "No matches" is shown: not loading, no results, a query of at least
      two characters as typed, and no error message. */
  predicate NoMatches(loading: bool, results: seq<Place>, query: string, error: Option<string>) {
    !loading && |results| == 0 && |query| >= 2 && !Truthy(error)
  }

  /** The message tests the untrimmed length and the guard the trimmed one: a
      padded one-letter query is never searched, yet "No matches" is shown. */
  lemma NoMatchesWithoutSearch()
    ensures Blocked(" a") && NoMatches(false, [], " a", None)
  {
    assert Trim(" a") == "a" by {
      assert TrimStart(" a") == "a" by { assert " a"[1..] == "a"; }
    }
  }

  const SearchFailed: string := "Failed to search locations"

  /** The search box's state. */
  class SearchBox {
    var query: string
    var results: seq<Place>
    var loading: bool
    var error: Option<string>
    var selected: Option<Place>

    constructor ()
      ensures query == "" && results == [] && !loading && error == None && selected == None
    {
      query, results, loading, error, selected := "", [], false, None, None;
    }

    /** `search(q)`, with the outcome of the geocoder request as `response` (its
        body being the `results` field). Returns the request sent, if any. */
    method Search(q: string, response: Response<Option<seq<Place>>>) returns (request: Option<SearchRequest>)
      modifies this
      ensures query == old(query) && selected == old(selected)
      ensures request.None? <==> Blocked(q)
      ensures Blocked(q) ==> results == [] && loading == old(loading) && error == old(error)
      ensures !Blocked(q) ==> request == Some(RequestFor(q)) && !loading
      ensures !Blocked(q) ==>
        error == (match response
                  case Ok(_) => None
                  case NotOk => Some(SearchFailed)
                  case Thrown(message) => Some(ErrorText(message)))
      ensures !Blocked(q) ==>
        results == (if response.Ok? then FilterIndia(response.body) else old(results))
    {
      if q == "" || |Trim(q)| < 2 {
        results := [];
        return None;
      }
      loading := true;
      error := None;
      request := Some(RequestFor(q));
      match response {
        case Ok(body) =>
          results := FilterIndia(body);
        case NotOk =>
          error := Some(SearchFailed);
        case Thrown(message) =>
          error := Some(ErrorText(message));
      }
      loading := false;
    }

    /** The selection handler: remember the place, close the list and write the
        place back into the query. */
    method Select(it: Place)
      modifies this
      ensures selected == Some(it) && results == [] && query == SelectionQuery(it)
      ensures loading == old(loading) && error == old(error)
    {
      selected := Some(it);
      results := [];
      query := SelectionQuery(it);
    }
  }
}
