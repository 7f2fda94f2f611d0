/**
  The URL handling both HTTP sinks share: Python's `urlparse` (the part of
  it the firmware relies on), the rebuilt target URL that carries the
  credentials as userinfo (section 3.2.1 of RFC 3986), and `quote_plus`,
  the application/x-www-form-urlencoded escaping of the Loki password.
 */
module Url {
  import opened Values

  // ---------------------------------------------------------------------
  // Searching in strings

  /** `s.find(c, from)`, with "not found" as `|s|`. */
  function IndexFrom(s: string, c: char, from: nat): (i: nat)
    requires from <= |s|
    ensures from <= i <= |s|
    ensures i < |s| ==> s[i] == c
    ensures forall k :: from <= k < i ==> s[k] != c
    decreases |s| - from
  {
    if from == |s| then |s| else if s[from] == c then from else IndexFrom(s, c, from + 1)
  }

  /** The first index at or after `from` holding one of `cs`, or `|s|`. */
  function IndexOfAny(s: string, cs: set<char>, from: nat): (i: nat)
    requires from <= |s|
    ensures from <= i <= |s|
    ensures i < |s| ==> s[i] in cs
    ensures forall k :: from <= k < i ==> s[k] !in cs
    decreases |s| - from
  {
    if from == |s| then |s| else if s[from] in cs then from else IndexOfAny(s, cs, from + 1)
  }

  /** `s.rfind(c)`, with "not found" as -1. */
  function LastIndex(s: string, c: char): (i: int)
    ensures -1 <= i < |s|
    ensures i >= 0 ==> s[i] == c
    ensures forall k :: i < k < |s| ==> s[k] != c
    decreases |s|
  {
    if s == [] then -1 else if s[|s| - 1] == c then |s| - 1 else LastIndex(s[..|s| - 1], c)
  }

  predicate NoneOf(s: string, cs: set<char>) {
    forall k :: 0 <= k < |s| ==> s[k] !in cs
  }

  /** The search result is the first matching index, whichever way it is found. */
  lemma IndexOfAnyIs(s: string, cs: set<char>, from: nat, i: nat)
    requires from <= i <= |s|
    requires i < |s| ==> s[i] in cs
    requires forall k :: from <= k < i ==> s[k] !in cs
    ensures IndexOfAny(s, cs, from) == i
  {
  }

  lemma IndexFromIs(s: string, c: char, from: nat, i: nat)
    requires from <= i <= |s|
    requires i < |s| ==> s[i] == c
    requires forall k :: from <= k < i ==> s[k] != c
    ensures IndexFrom(s, c, from) == i
  {
  }

  // ---------------------------------------------------------------------
  // urlparse

  /** The components `urlparse` returns. */
  datatype Parsed = Parsed(scheme: string, netloc: string, path: string,
                           params: string, query: string, fragment: string)

  predicate IsAsciiLetter(c: char) { 'a' <= c <= 'z' || 'A' <= c <= 'Z' }

  predicate IsSchemeChar(c: char) {
    IsAsciiLetter(c) || IsDigit(c) || c == '+' || c == '-' || c == '.'
  }

  function Lower(c: char): char {
    if 'A' <= c <= 'Z' then (c as int + 32) as char else c
  }

  function LowerAscii(s: string): (r: string)
    ensures |r| == |s| && forall k :: 0 <= k < |s| ==> r[k] == Lower(s[k])
  {
    seq(|s|, k requires 0 <= k < |s| => Lower(s[k]))
  }

  /** The schemes whose last path segment `urlparse` splits `;params` off. */
  const UsesParams: set<string> :=
    {"", "ftp", "hdl", "prospero", "http", "imap", "https", "shttp", "rtsp",
     "rtsps", "rtspu", "sip", "sips", "mms", "sftp", "tel"}

  /** Whether `s[..i]` is a scheme: `i > 0`, `s[0]` an ASCII letter, all scheme characters. */
  predicate SchemeAt(s: string, i: nat)
    requires i <= |s|
  {
    i > 0 && IsAsciiLetter(s[0]) && forall k :: 0 <= k < i ==> IsSchemeChar(s[k])
  }

  /** `_splitparams`: the path and the `;params` of its last segment. */
  function SplitParams(p: string): (string, string) {
    if ';' !in p then (p, "")
    else
      var r := LastIndex(p, '/');
      var i := if r >= 0 then IndexFrom(p, ';', r) else IndexFrom(p, ';', 0);
      if i == |p| then (p, "") else (p[..i], p[i + 1..])
  }

  /** The scheme `urlsplit` recognises (lower-cased) and what follows its colon. */
  function SplitScheme(s: string): (r: (string, string))
    ensures r.0 != "" ==> IsAsciiLetter(r.0[0])
    ensures forall k :: 0 <= k < |r.0| ==> IsSchemeChar(r.0[k]) && !('A' <= r.0[k] <= 'Z')
  {
    var colon := IndexFrom(s, ':', 0);
    if colon < |s| && SchemeAt(s, colon) then (LowerAscii(s[..colon]), s[colon + 1..]) else ("", s)
  }

  /** `_splitnetloc`: the authority after a leading `//`, and the rest. */
  function SplitNetloc(rest: string): (r: (string, string))
    ensures NoneOf(r.0, {'/', '?', '#'})
  {
    if |rest| >= 2 && rest[..2] == "//" then
      var d := IndexOfAny(rest, {'/', '?', '#'}, 2);
      (rest[2..d], rest[d..])
    else ("", rest)
  }

  /** `s.split(c, 1)` when `c in s`, else `(s, "")`. */
  function SplitAt(s: string, c: char): (r: (string, string))
    ensures c !in r.0
    ensures |r.0| <= |s| && forall k :: 0 <= k < |r.0| ==> r.0[k] == s[k]
    ensures c !in s ==> r == (s, "")
  {
    var i := IndexFrom(s, c, 0);
    if i < |s| then (s[..i], s[i + 1..]) else (s, "")
  }

  /** `urllib.parse.urlparse(s)` with the default arguments. */
  function UrlParse(s: string): (u: Parsed)
    ensures NoneOf(u.netloc, {'/', '?', '#'})
    ensures '?' !in u.path && '#' !in u.path
    ensures u.scheme != "" ==> IsAsciiLetter(u.scheme[0])
    ensures forall k :: 0 <= k < |u.scheme| ==> IsSchemeChar(u.scheme[k]) && !('A' <= u.scheme[k] <= 'Z')
  {
    var (scheme, rest) := SplitScheme(s);
    var (netloc, rest2) := SplitNetloc(rest);
    var (rest3, fragment) := SplitAt(rest2, '#');
    var (path0, query) := SplitAt(rest3, '?');
    assert '#' !in path0 by {
      forall k | 0 <= k < |path0| ensures path0[k] != '#' { assert path0[k] == rest3[k]; }
    }
    var (path, params) := if scheme in UsesParams then SplitParams(path0) else (path0, "");
    assert forall k :: 0 <= k < |path| ==> path[k] in path0;
    Parsed(scheme, netloc, path, params, query, fragment)
  }

  /** The authority holds both square brackets or neither. */
  predicate BracketsBalanced(netloc: string) {
    ('[' in netloc) == (']' in netloc)
  }

  /** `urlparse` with its error case: `urlsplit` raises ValueError
      ("Invalid IPv6 URL") when the authority holds one square bracket
      without the other (None). */
  function CheckedParse(s: string): Option<Parsed> {
    var u := UrlParse(s);
    if BracketsBalanced(u.netloc) then Some(u) else None
  }

  /** `"{scheme}://{user}:{password}@{netloc}{path}"` over parsed components. */
  function Rebuild(u: Parsed, user: string, password: string): string {
    u.scheme + "://" + user + ":" + password + "@" + u.netloc + u.path
  }

  /** The URL both writers post to: the base URL rebuilt with credentials.
      Params, query and fragment are not carried over. */
  function TargetUrl(base: string, user: string, password: string): string {
    Rebuild(UrlParse(base), user, password)
  }

  // ---------------------------------------------------------------------
  // Properties of the target URL

  /** A path that `_splitparams` leaves as it is. */
  predicate ParamsStable(p: string) {
    ';' in p ==> (var r := LastIndex(p, '/'); r >= 0 && forall k :: r <= k < |p| ==> p[k] != ';')
  }

  lemma ParamsStableSplit(p: string)
    requires ParamsStable(p)
    ensures SplitParams(p) == (p, "")
  {
  }

  lemma {:induction false} LastIndexPrefix(p: string, c: char, i: nat)
    requires LastIndex(p, c) < i <= |p|
    ensures LastIndex(p[..i], c) == LastIndex(p, c)
  {
    var r := LastIndex(p, c);
    var r' := LastIndex(p[..i], c);
    assert forall k :: 0 <= k < i ==> p[..i][k] == p[k];
  }

  /** What `_splitparams` keeps is stable under a second split. */
  lemma SplitParamsStable(p: string)
    ensures ParamsStable(SplitParams(p).0)
  {
    if ';' in p {
      var r := LastIndex(p, '/');
      if r >= 0 {
        var i := IndexFrom(p, ';', r);
        if i < |p| {
          LastIndexPrefix(p, '/', i);
        }
      } else {
        var i := IndexFrom(p, ';', 0);
        var y := p[..i];
        assert ';' !in y by {
          forall k | 0 <= k < |y| ensures y[k] != ';' { assert y[k] == p[k]; }
        }
      }
    }
  }

  lemma UrlParsePathStable(s: string)
    ensures UrlParse(s).scheme in UsesParams ==> ParamsStable(UrlParse(s).path)
  {
    var (scheme, rest) := SplitScheme(s);
    var (netloc, rest2) := SplitNetloc(rest);
    var (rest3, fragment) := SplitAt(rest2, '#');
    var (path0, query) := SplitAt(rest3, '?');
    SplitParamsStable(path0);
  }

  lemma SplitSchemeOf(scheme: string, rest: string)
    requires scheme != "" && IsAsciiLetter(scheme[0])
    requires forall k :: 0 <= k < |scheme| ==> IsSchemeChar(scheme[k]) && !('A' <= scheme[k] <= 'Z')
    ensures SplitScheme(scheme + ":" + rest) == (scheme, rest)
  {
    var t := scheme + ":" + rest;
    assert forall k :: 0 <= k < |scheme| ==> t[k] == scheme[k];
    IndexFromIs(t, ':', 0, |scheme|);
    assert t[..|scheme|] == scheme;
    assert LowerAscii(scheme) == scheme;
    assert t[|scheme| + 1..] == rest;
  }

  lemma SplitNetlocOf(a: string, path: string)
    requires NoneOf(a, {'/', '?', '#'})
    requires path == "" || path[0] == '/'
    ensures SplitNetloc("//" + a + path) == (a, path)
  {
    var rest := "//" + a + path;
    assert forall k :: 2 <= k < 2 + |a| ==> rest[k] == a[k - 2];
    IndexOfAnyIs(rest, {'/', '?', '#'}, 2, 2 + |a|);
    assert rest[2..2 + |a|] == a;
    assert rest[2 + |a|..] == path;
  }

  lemma NoneOfAppend(a: string, b: string, cs: set<char>)
    requires NoneOf(a, cs) && NoneOf(b, cs)
    ensures NoneOf(a + b, cs)
  {
    assert forall k :: 0 <= k < |a| ==> (a + b)[k] == a[k];
    assert forall k :: |a| <= k < |a| + |b| ==> (a + b)[k] == b[k - |a|];
  }

  lemma AuthorityDelimiterFree(user: string, password: string, netloc: string)
    requires NoneOf(user, {'/', '?', '#'}) && NoneOf(password, {'/', '?', '#'})
    requires NoneOf(netloc, {'/', '?', '#'})
    ensures NoneOf(user + ":" + password + "@" + netloc, {'/', '?', '#'})
  {
    var cs := {'/', '?', '#'};
    NoneOfAppend(user, ":", cs);
    NoneOfAppend(user + ":", password, cs);
    NoneOfAppend(user + ":" + password, "@", cs);
    NoneOfAppend(user + ":" + password + "@", netloc, cs);
  }

  /** Components that `Rebuild` and a second `urlparse` carry through unchanged. */
  predicate Reparsable(u: Parsed) {
    && u.scheme != "" && IsAsciiLetter(u.scheme[0])
    && (forall k :: 0 <= k < |u.scheme| ==> IsSchemeChar(u.scheme[k]) && !('A' <= u.scheme[k] <= 'Z'))
    && NoneOf(u.netloc, {'/', '?', '#'})
    && (u.path == "" || u.path[0] == '/')
    && '?' !in u.path && '#' !in u.path
    && (u.scheme in UsesParams ==> ParamsStable(u.path))
  }

  lemma RebuildRoundTrip(u: Parsed, user: string, password: string)
    requires Reparsable(u)
    requires NoneOf(user, {'/', '?', '#'}) && NoneOf(password, {'/', '?', '#'})
    ensures UrlParse(Rebuild(u, user, password))
         == Parsed(u.scheme, user + ":" + password + "@" + u.netloc, u.path, "", "", "")
  {
    var a := user + ":" + password + "@" + u.netloc;
    AuthorityDelimiterFree(user, password, u.netloc);
    var t := Rebuild(u, user, password);
    var rest := "//" + a + u.path;
    assert t == u.scheme + ":" + rest;
    SplitSchemeOf(u.scheme, rest);
    SplitNetlocOf(a, u.path);
    if u.scheme in UsesParams {
      ParamsStableSplit(u.path);
    }
    UrlParseStages(t, u.scheme, rest, a, u.path);
  }

  /** `scheme://authority/path` parses into its parts, and the check refuses it
      exactly when the authority's brackets do not pair up. */
  lemma CheckedParseOf(scheme: string, a: string, path: string)
    requires Reparsable(Parsed(scheme, a, path, "", "", ""))
    ensures CheckedParse(scheme + "://" + a + path)
         == if BracketsBalanced(a) then Some(Parsed(scheme, a, path, "", "", "")) else None
  {
    var rest := "//" + a + path;
    var t := scheme + "://" + a + path;
    assert t == scheme + ":" + rest;
    SplitSchemeOf(scheme, rest);
    SplitNetlocOf(a, path);
    if scheme in UsesParams {
      ParamsStableSplit(path);
    }
    UrlParseStages(t, scheme, rest, a, path);
  }

  /** `https://<a>/a` for an authority without delimiters: parsed, or refused
      on unpaired brackets. */
  lemma HttpsAuthority(a: string)
    requires NoneOf(a, {'/', '?', '#'})
    ensures CheckedParse("https" + "://" + a + "/a")
         == if BracketsBalanced(a) then Some(Parsed("https", a, "/a", "", "", "")) else None
  {
    assert "https" in UsesParams;
    assert ParamsStable("/a");
    CheckedParseOf("https", a, "/a");
  }

  lemma OpenBracket(host: string)
    requires NoneOf(host, {'/', '?', '#', ']'})
    ensures NoneOf("[" + host, {'/', '?', '#'}) && !BracketsBalanced("[" + host)
    ensures "https" + "://" + ("[" + host) + "/a" == "https://[" + host + "/a"
  {
    var a := "[" + host;
    assert forall k :: 1 <= k < |a| ==> a[k] == host[k - 1];
  }

  lemma ClosedBracket(host: string)
    requires NoneOf(host, {'/', '?', '#'})
    ensures NoneOf("[" + host + "]", {'/', '?', '#'}) && BracketsBalanced("[" + host + "]")
    ensures "https" + "://" + ("[" + host + "]") + "/a" == "https://[" + host + "]/a"
  {
    var a := "[" + host + "]";
    assert a[0] == '[' && a[|a| - 1] == ']';
    assert forall k :: 1 <= k < |a| - 1 ==> a[k] == host[k - 1];
  }

  /** An IPv6 host whose bracket is never closed (`https://[host/a`) is refused. */
  lemma UnclosedBracketRefused(host: string)
    requires NoneOf(host, {'/', '?', '#', ']'})
    ensures CheckedParse("https://[" + host + "/a") == None
  {
    OpenBracket(host);
    HttpsAuthority("[" + host);
  }

  /** A closed one (`https://[host]/a`) parses, brackets kept in the authority. */
  lemma ClosedBracketParses(host: string)
    requires NoneOf(host, {'/', '?', '#'})
    ensures CheckedParse("https://[" + host + "]/a") == Some(Parsed("https", "[" + host + "]", "/a", "", "", ""))
  {
    ClosedBracket(host);
    HttpsAuthority("[" + host + "]");
  }

  /** Parsing the target URL again gives the base URL's scheme and path back,
      with the credentials in front of its authority and no params, query or
      fragment -- provided the base has a scheme and an authority, and
      neither credential holds a character that ends an authority (`/`, `?`, `#`). */
  lemma TargetUrlRoundTrip(base: string, user: string, password: string)
    requires UrlParse(base).scheme != ""
    requires UrlParse(base).path == "" || UrlParse(base).path[0] == '/'
    requires NoneOf(user, {'/', '?', '#'}) && NoneOf(password, {'/', '?', '#'})
    ensures UrlParse(TargetUrl(base, user, password))
         == Parsed(UrlParse(base).scheme, user + ":" + password + "@" + UrlParse(base).netloc,
                   UrlParse(base).path, "", "", "")
  {
    UrlParsePathStable(base);
    RebuildRoundTrip(UrlParse(base), user, password);
  }

  lemma SplitNetlocCut(a: string, c: char, tail: string)
    requires NoneOf(a, {'/', '?', '#'}) && c in {'/', '?', '#'}
    ensures SplitNetloc("//" + a + [c] + tail).0 == a
  {
    var rest := "//" + a + [c] + tail;
    assert forall k :: 2 <= k < 2 + |a| ==> rest[k] == a[k - 2];
    assert rest[2 + |a|] == c;
    IndexOfAnyIs(rest, {'/', '?', '#'}, 2, 2 + |a|);
    assert rest[2..2 + |a|] == a;
  }

  /** A password holding `/`, `?` or `#` ends the authority at the first of
      them: the host a second `urlparse` finds is then not the base URL's. */
  lemma RebuildCutsAuthority(u: Parsed, user: string, password: string, j: nat)
    requires Reparsable(u)
    requires NoneOf(user, {'/', '?', '#'})
    requires j < |password| && password[j] in {'/', '?', '#'}
    requires NoneOf(password[..j], {'/', '?', '#'})
    ensures UrlParse(Rebuild(u, user, password)).netloc == user + ":" + password[..j]
  {
    var rest := "//" + user + ":" + password + "@" + u.netloc + u.path;
    assert Rebuild(u, user, password) == u.scheme + ":" + rest;
    SplitSchemeOf(u.scheme, rest);
    var a := user + ":" + password[..j];
    var tail := password[j + 1..] + "@" + u.netloc + u.path;
    CutShape(user, password, j, u.netloc, u.path);
    SplitNetlocCut(a, password[j], tail);
    UrlParseNetloc(Rebuild(u, user, password));
  }

  lemma CutShape(user: string, password: string, j: nat, netloc: string, path: string)
    requires NoneOf(user, {'/', '?', '#'})
    requires j < |password| && NoneOf(password[..j], {'/', '?', '#'})
    ensures NoneOf(user + ":" + password[..j], {'/', '?', '#'})
    ensures "//" + user + ":" + password + "@" + netloc + path
         == "//" + (user + ":" + password[..j]) + [password[j]] + (password[j + 1..] + "@" + netloc + path)
  {
    NoneOfAppend(user, ":", {'/', '?', '#'});
    NoneOfAppend(user + ":", password[..j], {'/', '?', '#'});
    assert password == password[..j] + [password[j]] + password[j + 1..];
  }

  lemma UrlParseNetloc(t: string)
    ensures UrlParse(t).netloc == SplitNetloc(SplitScheme(t).1).0
  {
  }

  /** `UrlParse` through its stages, for a URL whose stages are known. */
  lemma UrlParseStages(t: string, scheme: string, rest: string, netloc: string, path: string)
    requires SplitScheme(t) == (scheme, rest)
    requires SplitNetloc(rest) == (netloc, path)
    requires SplitAt(path, '#') == (path, "") && SplitAt(path, '?') == (path, "")
    requires scheme in UsesParams ==> SplitParams(path) == (path, "")
    ensures UrlParse(t) == Parsed(scheme, netloc, path, "", "", "")
  {
  }

  // ---------------------------------------------------------------------
  // quote_plus

  type byte = x: int | 0 <= x < 256

  /** The UTF-8 encoding of one character (Dafny characters are Unicode scalar values). */
  function Utf8(c: char): (bs: seq<byte>)
    ensures 1 <= |bs| <= 4
  {
    var n := c as int;
    if n < 0x80 then [n]
    else if n < 0x800 then [0xC0 + n / 64, 0x80 + n % 64]
    else if n < 0x10000 then [0xE0 + n / 4096, 0x80 + (n / 64) % 64, 0x80 + n % 64]
    else [0xF0 + n / 262144, 0x80 + (n / 4096) % 64, 0x80 + (n / 64) % 64, 0x80 + n % 64]
  }

  function Utf8String(s: string): seq<byte> {
    if s == [] then [] else Utf8(s[0]) + Utf8String(s[1..])
  }

  /** The bytes `quote` never escapes: ASCII letters, digits and `_.-~`. */
  predicate AlwaysSafe(b: byte) {
    ('A' as int <= b <= 'Z' as int) || ('a' as int <= b <= 'z' as int) ||
    ('0' as int <= b <= '9' as int) || b == '_' as int || b == '.' as int ||
    b == '-' as int || b == '~' as int
  }

  const HexDigits: string := "0123456789ABCDEF"

  /** One byte as `quote_plus` writes it: itself, `+` for a space, else `%XY`. */
  function QuoteByte(b: byte): (r: string)
    ensures |r| == 1 || |r| == 3
  {
    if AlwaysSafe(b) then [b as char]
    else if b == 32 then "+"
    else ['%', HexDigits[b / 16], HexDigits[b % 16]]
  }

  function QuoteBytes(bs: seq<byte>): string {
    if bs == [] then "" else QuoteByte(bs[0]) + QuoteBytes(bs[1..])
  }

  /** `urllib.parse.quote_plus(s)`: the UTF-8 bytes of `s`, form-urlencoded. */
  function QuotePlus(s: string): string {
    QuoteBytes(Utf8String(s))
  }

  function HexValue(c: char): Option<nat> {
    if '0' <= c <= '9' then Some(c as int - '0' as int)
    else if 'A' <= c <= 'F' then Some(c as int - 'A' as int + 10)
    else if 'a' <= c <= 'f' then Some(c as int - 'a' as int + 10)
    else None
  }

  /** `unquote_plus` down to bytes: `+` is a space, `%XY` a byte, a safe
      character itself; anything else is not form-urlencoded output. */
  function UnquoteBytes(s: string): Option<seq<byte>>
    decreases |s|
  {
    if s == [] then Some([])
    else if s[0] == '+' then
      match UnquoteBytes(s[1..]) case None => None case Some(r) => Some([32] + r)
    else if s[0] == '%' then
      if |s| < 3 then None
      else match (HexValue(s[1]), HexValue(s[2]))
        case (Some(h), Some(l)) =>
          if h < 16 && l < 16 then
            match UnquoteBytes(s[3..]) case None => None case Some(r) => Some([h * 16 + l] + r)
          else None
        case _ => None
    else if s[0] as int < 128 && AlwaysSafe(s[0] as int) then
      match UnquoteBytes(s[1..]) case None => None case Some(r) => Some([s[0] as int] + r)
    else None
  }

  lemma HexDigitValue(d: nat)
    requires d < 16
    ensures HexValue(HexDigits[d]) == Some(d)
  {
  }

  lemma {:induction false} UnquoteQuoteBytes(bs: seq<byte>)
    ensures UnquoteBytes(QuoteBytes(bs)) == Some(bs)
  {
    if bs != [] {
      UnquoteQuoteBytes(bs[1..]);
      UnquoteQuoteByte(bs[0], QuoteBytes(bs[1..]), bs[1..]);
      assert bs == [bs[0]] + bs[1..];
    }
  }

  /** One quoted byte in front of a decodable rest decodes back. */
  lemma UnquoteQuoteByte(b: byte, tail: string, r: seq<byte>)
    requires UnquoteBytes(tail) == Some(r)
    ensures UnquoteBytes(QuoteByte(b) + tail) == Some([b] + r)
  {
    var q := QuoteByte(b);
    if AlwaysSafe(b) || b == 32 {
      assert (q + tail)[1..] == tail;
    } else {
      UnquoteEscaped(b, tail, r);
    }
  }

  lemma UnquoteEscaped(b: byte, tail: string, r: seq<byte>)
    requires UnquoteBytes(tail) == Some(r) && !AlwaysSafe(b) && b != 32
    ensures UnquoteBytes(QuoteByte(b) + tail) == Some([b] + r)
  {
    ByteSplit(b);
    UnquoteHex(b / 16, b % 16, tail, r);
  }

  /** An escape `%XY` in front of a decodable rest decodes to its byte. */
  lemma UnquoteHex(hi: nat, lo: nat, tail: string, r: seq<byte>)
    requires hi < 16 && lo < 16 && UnquoteBytes(tail) == Some(r)
    ensures UnquoteBytes(['%', HexDigits[hi], HexDigits[lo]] + tail) == Some([hi * 16 + lo] + r)
  {
    var s := ['%', HexDigits[hi], HexDigits[lo]] + tail;
    HexDigitValue(hi);
    HexDigitValue(lo);
    assert s[1] == HexDigits[hi] && s[2] == HexDigits[lo];
    assert s[3..] == tail;
  }

  /** A byte is its high nibble times 16 plus its low nibble. */
  lemma ByteSplit(b: byte)
    ensures b / 16 < 16 && (b / 16) * 16 + b % 16 == b
  {
  }

  /** The Loki password decodes back to the key's UTF-8 bytes. */
  lemma UnquoteQuotePlus(s: string)
    ensures UnquoteBytes(QuotePlus(s)) == Some(Utf8String(s))
  {
    UnquoteQuoteBytes(Utf8String(s));
  }

  lemma {:induction false} QuoteBytesChars(bs: seq<byte>)
    ensures forall k :: 0 <= k < |QuoteBytes(bs)| ==>
      QuoteBytes(bs)[k] == '+' || QuoteBytes(bs)[k] == '%' ||
      (QuoteBytes(bs)[k] as int < 128 && AlwaysSafe(QuoteBytes(bs)[k] as int)) ||
      QuoteBytes(bs)[k] in HexDigits
  {
    if bs != [] {
      QuoteBytesChars(bs[1..]);
      var q := QuoteByte(bs[0]);
      var t := QuoteBytes(bs[1..]);
      assert QuoteBytes(bs) == q + t;
      forall k | 0 <= k < |q + t|
        ensures (q + t)[k] == '+' || (q + t)[k] == '%' ||
          ((q + t)[k] as int < 128 && AlwaysSafe((q + t)[k] as int)) || (q + t)[k] in HexDigits
      {
        if k >= |q| { assert (q + t)[k] == t[k - |q|]; }
      }
    }
  }

  /** `quote_plus` output never holds a URL delimiter, so the Loki password can
      never end the userinfo or the authority early. */
  lemma QuotePlusDelimiterFree(s: string)
    ensures NoneOf(QuotePlus(s), {'/', '?', '#', '@', ':'})
  {
    var q := QuotePlus(s);
    QuoteBytesChars(Utf8String(s));
    forall k | 0 <= k < |q| ensures q[k] !in {'/', '?', '#', '@', ':'} {
      if q[k] in HexDigits {
        var j :| 0 <= j < |HexDigits| && HexDigits[j] == q[k];
        assert '0' <= q[k] <= '9' || 'A' <= q[k] <= 'F';
      } else if q[k] != '+' && q[k] != '%' {
        assert AlwaysSafe(q[k] as int);
      }
    }
  }
}
