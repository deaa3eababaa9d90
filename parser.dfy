/**
 * QR parsing for pre-filling registration: a URL's domain suggests the
 * manufacturer and its first batch/lot query parameter the batch number;
 * any other text is taken as the batch number itself.
 */
module Parser {
  import opened Wrappers
  import opened Text

  // ---------------------------------------------------------------------------
  // urllib.parse.urlsplit, as far as the netloc and the query are concerned
  // ---------------------------------------------------------------------------

  /** The five components of a split URL. */
  datatype SplitUrl = SplitUrl(scheme: string, netloc: string, path: string, query: string, fragment: string)

  predicate IsAsciiLetter(c: char) {
    'a' <= c <= 'z' || 'A' <= c <= 'Z'
  }

  /** The characters allowed in a URL scheme. */
  predicate IsSchemeChar(c: char) {
    IsAsciiLetter(c) || IsDigit(c) || c == '+' || c == '-' || c == '.'
  }

  /** The characters stripped from the front of a URL: C0 controls and space. */
  predicate IsC0OrSpace(c: char) {
    c <= ' '
  }

  /** The characters deleted anywhere in a URL. */
  predicate IsUnsafe(c: char) {
    c == '\t' || c == '\r' || c == '\n'
  }

  const NetlocEnd: set<char> := {'/', '?', '#'}

  /** The first index at or after `i` that holds no C0 control or space. */
  function SkipC0(s: string, i: nat): (j: nat)
    requires i <= |s|
    ensures i <= j <= |s|
    ensures j < |s| ==> !IsC0OrSpace(s[j])
    decreases |s| - i
  {
    if i == |s| || !IsC0OrSpace(s[i]) then i else SkipC0(s, i + 1)
  }

  /** `s` with every tab, carriage return and line feed removed, the rest kept in order. */
  function RemoveUnsafe(s: string): (r: string)
    ensures |r| <= |s|
    ensures forall k :: 0 <= k < |r| ==> !IsUnsafe(r[k])
    ensures (forall k :: 0 <= k < |s| ==> !IsUnsafe(s[k])) ==> r == s
  {
    if |s| == 0 then []
    else if IsUnsafe(s[0]) then RemoveUnsafe(s[1..])
    else [s[0]] + RemoveUnsafe(s[1..])
  }

  /** `c in s`. */
  predicate Has(s: string, c: char) {
    IndexOf(s, c) < |s|
  }

  /** The netloc holds both square brackets or neither. */
  predicate BracketsBalanced(netloc: string) {
    Has(netloc, '[') == Has(netloc, ']')
  }

  /**
   * urlsplit(url): leading controls and spaces are dropped and tabs and line breaks deleted;
   * a leading run of scheme characters before ':' that starts with a letter is the
   * (lower-cased) scheme; after "//" the netloc runs to the first '/', '?' or '#', and a
   * netloc with only one kind of square bracket is a ValueError (Err); then the fragment
   * is cut at the first '#' and the query at the first '?' before it.
   */
  function UrlSplit(url: string): (r: Result<SplitUrl>)
    ensures r.Err? <==> !BracketsBalanced(UrlSplitNetloc(url))
    ensures r.Ok? ==> r.value.netloc == UrlSplitNetloc(url) && !Has(r.value.query, '#')
    ensures r.Ok? ==> forall k :: 0 <= k < |r.value.netloc| ==> r.value.netloc[k] !in NetlocEnd
  {
    var (scheme, rest) := SplitScheme(RemoveUnsafe(Cleaned(url)));
    var (netloc, afterNetloc) := SplitNetloc(rest);
    if !BracketsBalanced(netloc) then Err("ValueError: Invalid IPv6 URL")
    else
      var h := IndexOf(afterNetloc, '#');
      var beforeFragment := afterNetloc[..h];
      var fragment := if h < |afterNetloc| then afterNetloc[h + 1..] else "";
      var q := IndexOf(beforeFragment, '?');
      var path := beforeFragment[..q];
      var query := if q < |beforeFragment| then beforeFragment[q + 1..] else "";
      assert !Has(query, '#') by {
        assert forall k :: 0 <= k < |query| ==> query[k] == beforeFragment[q + 1 + k];
      }
      Ok(SplitUrl(scheme, netloc, path, query, fragment))
  }

  /** The URL with its leading C0 controls and spaces removed. */
  function Cleaned(url: string): string {
    url[SkipC0(url, 0)..]
  }

  /** The netloc urlsplit reads from `url` (empty when no "//" follows the scheme). */
  function UrlSplitNetloc(url: string): string {
    SplitNetloc(SplitScheme(RemoveUnsafe(Cleaned(url))).1).0
  }

  /** The scheme (lower-cased) and the rest, or "" and the whole text when there is none. */
  function SplitScheme(url: string): (string, string) {
    var i := IndexOf(url, ':');
    if 0 < i < |url| && IsAsciiLetter(url[0]) && (forall k :: 0 <= k < i ==> IsSchemeChar(url[k]))
    then (Lower(url[..i]), url[i + 1..])
    else ("", url)
  }

  /** After a leading "//", the text up to the first '/', '?' or '#', and what follows. */
  function SplitNetloc(rest: string): (parts: (string, string))
    ensures forall k :: 0 <= k < |parts.0| ==> parts.0[k] !in NetlocEnd
  {
    if StartsWith(rest, "//") then
      var d := 2 + IndexOfAny(rest[2..], NetlocEnd);
      (rest[2..d], rest[d..])
    else ("", rest)
  }

  /** The text after "http://" or "https://": its length, 7 or 8. */
  function HttpPrefixLength(s: string): nat {
    if StartsWith(s, "http://") then 7 else 8
  }

  predicate IsHttpUrl(s: string) {
    StartsWith(s, "http://") || StartsWith(s, "https://")
  }

  /**
   * For text starting with "http://" or "https://" and holding no tab or line break, the
   * scheme is recognised and the netloc is exactly the text after the prefix up to the first
   * '/', '?' or '#'.
   */
  lemma HttpNetloc(s: string)
    requires IsHttpUrl(s)
    requires forall k :: 0 <= k < |s| ==> !IsUnsafe(s[k])
    ensures var p := HttpPrefixLength(s);
      UrlSplitNetloc(s) == s[p..p + IndexOfAny(s[p..], NetlocEnd)]
  {
    HttpIsClean(s);
    var i := if StartsWith(s, "http://") then 4 else 5;
    var p := HttpPrefixLength(s);
    assert p == i + 3;
    HttpScheme(s, i);
    var rest := s[i + 1..];
    assert UrlSplitNetloc(s) == SplitNetloc(rest).0;
    assert rest[0] == '/' && rest[1] == '/';
    AfterSlashes(rest);
    var e := IndexOfAny(rest[2..], NetlocEnd);
    SliceOfSuffix(s, i + 1, 2, e);
  }

  /** A slice of a suffix is a slice of the whole text. */
  lemma SliceOfSuffix(s: string, a: nat, b: nat, e: nat)
    requires a + b + e <= |s|
    ensures s[a..][b..] == s[a + b..]
    ensures s[a..][b..b + e] == s[a + b..a + b + e]
  {
  }

  /** Text starting with "http" and free of tabs and line breaks is left alone by the cleaning. */
  lemma HttpIsClean(s: string)
    requires IsHttpUrl(s)
    requires forall k :: 0 <= k < |s| ==> !IsUnsafe(s[k])
    ensures RemoveUnsafe(Cleaned(s)) == s
    ensures s[..4] == "http"
  {
    assert s[..4] == "http" by {
      if StartsWith(s, "http://") { assert s[..4] == s[..7][..4]; } else { assert s[..4] == s[..8][..4]; }
    }
    assert s[0] == 'h';
    assert SkipC0(s, 0) == 0;
    assert Cleaned(s) == s;
  }

  /** The scheme of "http://..." ends at index 4, that of "https://..." at index 5. */
  lemma HttpScheme(s: string, i: nat)
    requires (i == 4 && StartsWith(s, "http://")) || (i == 5 && StartsWith(s, "https://"))
    ensures SplitScheme(s).1 == s[i + 1..]
    ensures s[i + 1] == '/' && s[i + 2] == '/'
  {
    if i == 4 {
      var t := s[..7];
      assert t == "http://";
      assert s[0] == t[0] && s[1] == t[1] && s[2] == t[2] && s[3] == t[3] && s[4] == t[4] && s[5] == t[5] && s[6] == t[6];
    } else {
      var t := s[..8];
      assert t == "https://";
      assert s[0] == t[0] && s[1] == t[1] && s[2] == t[2] && s[3] == t[3] && s[4] == t[4];
      assert s[5] == t[5] && s[6] == t[6] && s[7] == t[7];
    }
    assert forall k :: 0 <= k < i ==> s[k] != ':' && IsSchemeChar(s[k]);
    IndexOfFirst(s, ':', i);
  }

  /** After "//" the netloc runs up to the first '/', '?' or '#'. */
  lemma AfterSlashes(rest: string)
    requires |rest| >= 2 && rest[0] == '/' && rest[1] == '/'
    ensures SplitNetloc(rest).0 == rest[2..2 + IndexOfAny(rest[2..], NetlocEnd)]
  {
    assert StartsWith(rest, "//");
  }

  // ---------------------------------------------------------------------------
  // The manufacturer heuristic
  // ---------------------------------------------------------------------------

  /** str.capitalize() on ASCII: the first character upper-cased, the rest lower-cased. */
  function Capitalize(s: string): (r: string)
    ensures |r| == |s|
    ensures |s| > 0 ==> r[0] == UpperChar(s[0]) && r[1..] == Lower(s[1..])
  {
    if |s| == 0 then "" else [UpperChar(s[0])] + Lower(s[1..])
  }

  /**
   * extract_manufacturer_from_domain(url): the netloc with every "www." removed, cut at its
   * first '.', capitalised; "" when splitting the URL raised.
   */
  function ExtractManufacturerFromDomain(url: string): (name: string)
    ensures UrlSplit(url).Err? ==> name == ""
    ensures |name| <= |UrlSplitNetloc(url)|
  {
    match UrlSplit(url)
    case Err(_) => ""
    case Ok(parts) =>
      var domain := RemoveAll(parts.netloc, "www.");
      Capitalize(domain[..IndexOf(domain, '.')])
  }

  /** The company name never contains a dot. */
  lemma ManufacturerHasNoDot(url: string)
    ensures !Has(ExtractManufacturerFromDomain(url), '.')
  {
    var name := ExtractManufacturerFromDomain(url);
    if UrlSplit(url).Ok? {
      var host := RemoveAll(UrlSplit(url).value.netloc, "www.");
      var cut := host[..IndexOf(host, '.')];
      assert forall k :: 0 <= k < |cut| ==> cut[k] != '.';
      assert forall k :: 0 <= k < |name| ==> name[k] != '.' by {
        forall k | 0 <= k < |name|
          ensures name[k] != '.'
        {
          if k == 0 { assert name[0] == UpperChar(cut[0]); }
          else { assert name[k] == Lower(cut[1..])[k - 1] == LowerChar(cut[k]); }
        }
      }
      NoCharIndex(name, '.');
    }
  }

  /**
   * For "http://" or "https://", an optional "www.", a first label n and the rest of the host,
   * followed by the end of the text or by '/', '?' or '#', the guess is n capitalised. The host
   * holds no '/', '?', '#' or bracket, n holds no '.', and n does not end in "www" (otherwise
   * "www." would be cut out across the label's end).
   */
  lemma ManufacturerOfHost(pre: string, www: string, n: string, more: string, tail: string)
    requires pre == "http://" || pre == "https://"
    requires www == "" || www == "www."
    requires forall k :: 0 <= k < |n| ==> n[k] != '.'
    requires !(|n| >= 3 && n[|n| - 3..] == "www")
    requires forall k :: 0 <= k < |www + n + "." + more| ==> IsHostChar((www + n + "." + more)[k])
    requires tail == [] || tail[0] in NetlocEnd
    requires forall k :: 0 <= k < |pre + www + n + "." + more + tail| ==>
      !IsUnsafe((pre + www + n + "." + more + tail)[k])
    ensures ExtractManufacturerFromDomain(pre + www + n + "." + more + tail) == Capitalize(n)
  {
    var host := www + n + "." + more;
    var s := pre + www + n + "." + more + tail;
    assert s == pre + (host + tail);
    HttpPrefix(pre, host + tail);
    NetlocOfHost(s, host, tail);
    HostBalanced(host);
    ManufacturerOfNetloc(s);
    LabelCut(www, n, more);
  }

  /** A host character: no end of the netloc and no bracket. */
  predicate IsHostChar(c: char) {
    c !in NetlocEnd && c != '[' && c != ']'
  }

  /** The guess when urlsplit succeeds: the netloc without "www.", up to its first '.', capitalised. */
  lemma ManufacturerOfNetloc(url: string)
    requires BracketsBalanced(UrlSplitNetloc(url))
    ensures var host := RemoveAll(UrlSplitNetloc(url), "www.");
      ExtractManufacturerFromDomain(url) == Capitalize(host[..IndexOf(host, '.')])
  {
  }

  /** A bracket-free host passes urlsplit's IPv6 check. */
  lemma HostBalanced(host: string)
    requires forall k :: 0 <= k < |host| ==> IsHostChar(host[k])
    ensures BracketsBalanced(host)
  {
    assert IndexOf(host, '[') == |host|;
    assert IndexOf(host, ']') == |host|;
  }

  /** The first label survives the removal of "www." and is what the cut at the first '.' keeps. */
  lemma LabelCut(www: string, n: string, more: string)
    requires www == "" || www == "www."
    requires forall k :: 0 <= k < |n| ==> n[k] != '.'
    requires !(|n| >= 3 && n[|n| - 3..] == "www")
    ensures var h := RemoveAll(www + n + "." + more, "www."); h[..IndexOf(h, '.')] == n
  {
    var x := n + "." + more;
    assert www + n + "." + more == www + x;
    if www == "www." {
      LeadingWwwDropped(x);
    } else {
      assert www + x == x;
    }
    FirstLabelKept(n, more);
    CutAtDot(n, RemoveAll(more, "www."));
  }

  /** A leading "www." is removed. */
  lemma LeadingWwwDropped(x: string)
    ensures RemoveAll("www." + x, "www.") == RemoveAll(x, "www.")
  {
    var t := "www." + x;
    assert t[..4] == "www.";
    assert t[4..] == x;
  }

  /** The text before the first '.' of a dot-free label, a '.' and more is the label. */
  lemma CutAtDot(n: string, rest: string)
    requires forall k :: 0 <= k < |n| ==> n[k] != '.'
    ensures var h := n + "." + rest; h[..IndexOf(h, '.')] == n
  {
    var h := n + "." + rest;
    IndexOfFirst(h, '.', |n|);
    assert h[..|n|] == n;
  }

  /** The netloc of an http URL whose text after the prefix is a host and then its end. */
  lemma NetlocOfHost(s: string, host: string, tail: string)
    requires IsHttpUrl(s) && s[HttpPrefixLength(s)..] == host + tail
    requires forall k :: 0 <= k < |host| ==> IsHostChar(host[k])
    requires tail == [] || tail[0] in NetlocEnd
    requires forall k :: 0 <= k < |s| ==> !IsUnsafe(s[k])
    ensures UrlSplitNetloc(s) == host
  {
    var r := host + tail;
    var p := HttpPrefixLength(s);
    HttpNetloc(s);
    IndexOfAnyFirst(r, NetlocEnd, |host|);
    SliceOfSuffix(s, p, 0, |host|);
    assert r[..|host|] == host;
  }

  /** Text after "http://" or "https://" is an http URL whose prefix has that length. */
  lemma HttpPrefix(pre: string, rest: string)
    requires pre == "http://" || pre == "https://"
    ensures IsHttpUrl(pre + rest) && HttpPrefixLength(pre + rest) == |pre| && (pre + rest)[|pre|..] == rest
  {
    var s := pre + rest;
    assert s[..|pre|] == pre;
    if pre == "https://" {
      Mismatch(s, "http://", 4);
    }
  }

  /** No "www." starts inside a dot-free label followed by its dot, unless the label ends in "www". */
  lemma FirstLabelKept(n: string, more: string)
    requires forall k :: 0 <= k < |n| ==> n[k] != '.'
    requires !(|n| >= 3 && n[|n| - 3..] == "www")
    ensures RemoveAll(n + "." + more, "www.") == n + "." + RemoveAll(more, "www.")
  {
    var x := n + ".";
    var t := x + more;
    forall k | 0 <= k < |x|
      ensures !StartsWith(t[k..], "www.")
    {
      var u := t[k..];
      if |u| < 4 {
      } else if k + 3 < |n| {
        assert u[3] == n[k + 3];
        Mismatch(u, "www.", 3);
      } else if k + 3 == |n| {
        assert n[|n| - 3..] == u[..3];
        assert u[..3] != "www";
        var j :| 0 <= j < 3 && u[j] != 'w';
        Mismatch(u, "www.", j);
      } else {
        assert u[|n| - k] == '.';
        Mismatch(u, "www.", |n| - k);
      }
    }
    RemoveAllKeepsPrefix(x, more, "www.");
  }

  /** A differing position rules out a prefix. */
  lemma Mismatch(u: string, p: string, j: nat)
    requires j < |p| && j < |u| && u[j] != p[j]
    ensures !StartsWith(u, p)
  {
    if |p| <= |u| {
      assert u[..|p|][j] == u[j];
    }
  }

  lemma NoCharIndex(s: string, c: char)
    requires forall k :: 0 <= k < |s| ==> s[k] != c
    ensures !Has(s, c)
  {
  }

  // ---------------------------------------------------------------------------
  // urllib.parse.parse_qs with its default arguments
  // ---------------------------------------------------------------------------

  predicate IsHex(c: char) {
    IsDigit(c) || 'a' <= c <= 'f' || 'A' <= c <= 'F'
  }

  function HexValue(c: char): (v: nat)
    requires IsHex(c)
    ensures v < 16
  {
    if IsDigit(c) then c as int - '0' as int
    else if 'a' <= c <= 'f' then c as int - 'a' as int + 10
    else c as int - 'A' as int + 10
  }

  /** The upper-case hexadecimal digit for v. */
  function HexDigit(v: nat): (c: char)
    requires v < 16
    ensures IsHex(c) && HexValue(c) == v
  {
    if v < 10 then ('0' as int + v) as char else ('A' as int + v - 10) as char
  }

  /** The character a "%XX" escape at the front of `s` stands for, when it is an ASCII one. */
  predicate AsciiEscapeAt(s: string) {
    |s| >= 3 && s[0] == '%' && IsHex(s[1]) && IsHex(s[2]) && HexValue(s[1]) * 16 + HexValue(s[2]) < 128
  }

  /**
   * urllib.parse.unquote for escapes of ASCII characters: each "%XX" naming a code below 128
   * becomes that character; every other character, a malformed escape included, is kept.
   */
  function Unquote(s: string): (r: string)
    ensures |r| <= |s|
    ensures |s| > 0 ==> |r| > 0
    ensures !Has(s, '%') ==> r == s
    decreases |s|
  {
    if |s| == 0 then ""
    else if AsciiEscapeAt(s) then [(HexValue(s[1]) * 16 + HexValue(s[2])) as char] + Unquote(s[3..])
    else [s[0]] + Unquote(s[1..])
  }

  /** urllib.parse.quote taken to the extreme: every character escaped as "%XX". */
  function QuoteAll(t: string): string
    requires forall k :: 0 <= k < |t| ==> t[k] as int < 128
  {
    if |t| == 0 then ""
    else ['%', HexDigit(t[0] as int / 16), HexDigit(t[0] as int % 16)] + QuoteAll(t[1..])
  }

  /** Unquote undoes escaping of ASCII text. */
  lemma {:induction false} UnquoteQuoteAll(t: string)
    requires forall k :: 0 <= k < |t| ==> t[k] as int < 128
    ensures Unquote(QuoteAll(t)) == t
  {
    if |t| > 0 {
      var e := QuoteAll(t);
      assert e == ['%', HexDigit(t[0] as int / 16), HexDigit(t[0] as int % 16)] + QuoteAll(t[1..]);
      assert AsciiEscapeAt(e);
      assert e[3..] == QuoteAll(t[1..]);
      UnquoteQuoteAll(t[1..]);
      assert t == [t[0]] + t[1..];
    }
  }

  /** A name or value of a form field: '+' stands for a space, then escapes are decoded. */
  function FormDecode(s: string): (r: string)
    ensures |s| > 0 ==> |r| > 0
  {
    Unquote(ReplaceChar(s, '+', ' '))
  }

  /** The (name, value) pair one "&"-separated piece contributes: none when it has no '=' or
      nothing after its first '='. */
  function PieceToPairs(piece: string): (r: seq<(string, string)>)
    ensures |r| <= 1
    ensures |r| == 1 <==> IndexOf(piece, '=') + 1 < |piece|
  {
    var i := IndexOf(piece, '=');
    if i + 1 < |piece| then [(FormDecode(piece[..i]), FormDecode(piece[i + 1..]))] else []
  }

  function PiecesToPairs(pieces: seq<string>): (r: seq<(string, string)>)
    ensures forall j :: 0 <= j < |r| ==> |r[j].1| > 0
  {
    if |pieces| == 0 then [] else PieceToPairs(pieces[0]) + PiecesToPairs(pieces[1..])
  }

  /** parse_qsl(qs): the name/value pairs in order; blank values are dropped. */
  function QueryPairs(qs: string): (r: seq<(string, string)>)
    ensures forall j :: 0 <= j < |r| ==> |r[j].1| > 0
  {
    PiecesToPairs(SplitOn(qs, '&'))
  }

  /** A dictionary from names to lists of values, in insertion order. */
  type Groups = seq<(string, seq<string>)>

  /** Every name appears once and every list holds a value. */
  predicate WellFormedGroups(g: Groups) {
    && (forall j :: 0 <= j < |g| ==> |g[j].1| > 0)
    && (forall j, l :: 0 <= j < l < |g| ==> g[j].0 != g[l].0)
  }

  /** The position of `name` in the dictionary, |g| when it is absent. */
  function KeyIndex(g: Groups, name: string): (i: nat)
    ensures i <= |g|
    ensures i < |g| ==> g[i].0 == name
    ensures forall j :: 0 <= j < i ==> g[j].0 != name
  {
    if |g| == 0 || g[0].0 == name then 0 else 1 + KeyIndex(g[1..], name)
  }

  /** parsed_result.setdefault-style insertion: append to the name's list, or add the name last. */
  function Insert(g: Groups, p: (string, string)): (r: Groups)
    requires WellFormedGroups(g)
    ensures WellFormedGroups(r)
  {
    var i := KeyIndex(g, p.0);
    if i < |g| then g[i := (p.0, g[i].1 + [p.1])] else g + [(p.0, [p.1])]
  }

  /** The dictionary parse_qs builds from the pairs, in order of first appearance. */
  function Group(pairs: seq<(string, string)>): (g: Groups)
    ensures WellFormedGroups(g)
    decreases |pairs|
  {
    if |pairs| == 0 then [] else Insert(Group(pairs[..|pairs| - 1]), pairs[|pairs| - 1])
  }

  /** parse_qs(qs). */
  function ParseQs(qs: string): (g: Groups)
    ensures WellFormedGroups(g)
  {
    Group(QueryPairs(qs))
  }

  // ---------------------------------------------------------------------------
  // The batch parameter
  // ---------------------------------------------------------------------------

  /** 'batch' in key.lower() or 'lot' in key.lower(). */
  predicate IsBatchKey(key: string) {
    var low := Lower(key);
    Contains(low, "batch") || Contains(low, "lot")
  }

  /** The value of the first pair, in the order the query gives them, whose name is a batch key. */
  function FirstBatchPair(pairs: seq<(string, string)>): (r: Option<string>)
    ensures r.None? <==> forall j :: 0 <= j < |pairs| ==> !IsBatchKey(pairs[j].0)
    ensures r.Some? ==> exists j :: 0 <= j < |pairs| && IsBatchKey(pairs[j].0) && r.value == pairs[j].1
                                    && forall l :: 0 <= l < j ==> !IsBatchKey(pairs[l].0)
    decreases |pairs|
  {
    if |pairs| == 0 then None
    else
      var before := FirstBatchPair(pairs[..|pairs| - 1]);
      if before.Some? then before
      else if IsBatchKey(pairs[|pairs| - 1].0) then Some(pairs[|pairs| - 1].1)
      else None
  }

  /** The first value listed under the first dictionary name that is a batch key. */
  function FirstBatchGroup(g: Groups): (r: Option<string>)
    requires forall j :: 0 <= j < |g| ==> |g[j].1| > 0
    ensures r.None? <==> forall j :: 0 <= j < |g| ==> !IsBatchKey(g[j].0)
  {
    if |g| == 0 then None
    else if IsBatchKey(g[0].0) then Some(g[0].1[0])
    else FirstBatchGroup(g[1..])
  }

  /** Appending to a name's list leaves every first value, hence the answer, as it was. */
  lemma {:induction false} FirstBatchGroupAppendValue(g: Groups, i: nat, v: string)
    requires WellFormedGroups(g) && i < |g|
    ensures WellFormedGroups(g[i := (g[i].0, g[i].1 + [v])])
    ensures FirstBatchGroup(g[i := (g[i].0, g[i].1 + [v])]) == FirstBatchGroup(g)
  {
    var h := g[i := (g[i].0, g[i].1 + [v])];
    if i > 0 {
      assert h[0] == g[0];
      assert h[1..] == g[1..][i - 1 := (g[i].0, g[i].1 + [v])];
      FirstBatchGroupAppendValue(g[1..], i - 1, v);
    } else {
      assert h[0].0 == g[0].0 && h[0].1[0] == g[0].1[0];
      assert h[1..] == g[1..];
    }
  }

  /** A name added last only matters when no earlier name is a batch key. */
  lemma {:induction false} FirstBatchGroupAppendName(g: Groups, name: string, v: string)
    requires forall j :: 0 <= j < |g| ==> |g[j].1| > 0
    ensures var h := g + [(name, [v])];
      FirstBatchGroup(h) == if FirstBatchGroup(g).Some? then FirstBatchGroup(g)
                            else if IsBatchKey(name) then Some(v) else None
  {
    if |g| > 0 {
      assert (g + [(name, [v])])[1..] == g[1..] + [(name, [v])];
      FirstBatchGroupAppendName(g[1..], name, v);
    }
  }

  /**
   * Looking through the dictionary parse_qs builds finds the same value as looking through
   * the query's pairs in order: grouping keeps names in order of first appearance and each
   * name's first value first.
   */
  lemma {:induction false} GroupKeepsFirstBatch(pairs: seq<(string, string)>)
    ensures FirstBatchGroup(Group(pairs)) == FirstBatchPair(pairs)
    decreases |pairs|
  {
    if |pairs| > 0 {
      var front, p := pairs[..|pairs| - 1], pairs[|pairs| - 1];
      var g := Group(front);
      GroupKeepsFirstBatch(front);
      var i := KeyIndex(g, p.0);
      if i < |g| {
        FirstBatchGroupAppendValue(g, i, p.1);
      } else {
        FirstBatchGroupAppendName(g, p.0, p.1);
      }
    }
  }

  // ---------------------------------------------------------------------------
  // The route
  // ---------------------------------------------------------------------------

  /** The answers of /parse-qr. */
  datatype QrReply =
    | NoData                    // 400 {"error": "No data provided"}
    | ServerError               // 500: the second urlparse raised
    | Details(batchNumber: string, manufacturer: string, drugName: string)
  {
    function Status(): int {
      match this
      case NoData => 400
      case ServerError => 500
      case Details(_, _, _) => 200
    }
  }

  /** The loop over parse_qs's dictionary: the first value of the first batch or lot name,
      "" when there is none. */
  method FindBatchNumber(params: Groups) returns (batchNumber: string)
    requires WellFormedGroups(params)
    ensures batchNumber == FirstBatchGroup(params).GetOr("")
  {
    batchNumber := "";
    var i := 0;
    while i < |params|
      invariant 0 <= i <= |params|
      invariant FirstBatchGroup(params[i..]) == FirstBatchGroup(params)
    {
      if IsBatchKey(params[i].0) {
        batchNumber := params[i].1[0];
        return;
      }
      assert params[i..][1..] == params[i + 1..];
      i := i + 1;
    }
  }

  /**
   * parse_qr_data(): `data` is the JSON "data" field (None when absent, read as ""). Stripped
   * text that is empty is refused; text starting with "http://" or "https://" (case matters)
   * gives the domain's manufacturer and the first batch/lot parameter, any other text is
   * the batch number itself. The drug name is never filled in.
   */
  method ParseQrData(data: Option<string>) returns (r: QrReply)
    ensures var scanned := Strip(data.GetOr(""));
      && (r == NoData <==> scanned == [])
      && (scanned != [] && !IsHttpUrl(scanned) ==> r == Details(scanned, "", ""))
      && (scanned != [] && IsHttpUrl(scanned) ==> (r == ServerError <==> UrlSplit(scanned).Err?))
      && (scanned != [] && IsHttpUrl(scanned) && UrlSplit(scanned).Ok? ==>
            r == Details(FirstBatchPair(QueryPairs(UrlSplit(scanned).value.query)).GetOr(""),
                         ExtractManufacturerFromDomain(scanned), ""))
  {
    var scanned := Strip(data.GetOr(""));
    if scanned == [] {
      return NoData;
    }
    if !(StartsWith(scanned, "http://") || StartsWith(scanned, "https://")) {
      return Details(scanned, "", "");
    }
    var manufacturer := ExtractManufacturerFromDomain(scanned);
    var split := UrlSplit(scanned);
    if split.Err? {
      return ServerError;
    }
    var params := ParseQs(split.value.query);
    var batchNumber := FindBatchNumber(params);
    GroupKeepsFirstBatch(QueryPairs(split.value.query));
    r := Details(batchNumber, manufacturer, "");
  }
}
