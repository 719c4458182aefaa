/** The URL splitter the scraper relies on: Python 3.12's `urllib.parse.urlparse`,
    that is `urlsplit` followed by the `;params` split of the last path segment. */
module Urls {
  import opened Strings

  datatype Url = Url(scheme: string, netloc: string, path: string, params: string,
                     query: string, fragment: string)

  predicate IsSchemeChar(c: char)
  {
    IsAsciiLetter(c) || IsDigit(c) || c == '+' || c == '-' || c == '.'
  }

  /** The schemes for which `urlparse` splits off `;params`. */
  const UsesParams: seq<string> := ["", "ftp", "hdl", "prospero", "http", "imap", "https",
    "shttp", "rtsp", "rtspu", "sip", "sips", "mms", "sftp", "tel"]

  /** The index of the first character of `s` at or after `from` that is in `cs`,
      or `|s|` when there is none (`str.find`, with "not found" as `|s|`). */
  function FindFrom(s: string, cs: set<char>, from: nat): (i: nat)
    requires from <= |s|
    ensures from <= i <= |s|
    ensures i < |s| ==> s[i] in cs
    ensures forall j :: from <= j < i ==> s[j] !in cs
    decreases |s| - from
  {
    if from == |s| then |s| else if s[from] in cs then from else FindFrom(s, cs, from + 1)
  }

  function Find(s: string, cs: set<char>): (i: nat)
    ensures i <= |s|
    ensures i < |s| ==> s[i] in cs
    ensures forall j :: 0 <= j < i ==> s[j] !in cs
  {
    FindFrom(s, cs, 0)
  }

  /** `s.rfind(c)`, for a character known to occur. */
  function RFind(s: string, c: char): (i: nat)
    requires c in s
    ensures i < |s| && s[i] == c
    ensures forall j :: i < j < |s| ==> s[j] != c
  {
    if s[|s| - 1] == c then |s| - 1
    else
      assert c in s[..|s| - 1] by {
        var k :| 0 <= k < |s| && s[k] == c;
        assert s[..|s| - 1][k] == c;
      }
      RFind(s[..|s| - 1], c)
  }

  /** A scheme is taken off when a ':' follows at least one character, the first
      an ASCII letter and all of them scheme characters; it is lower-cased. */
  predicate HasScheme(url: string)
  {
    var i := Find(url, {':'});
    0 < i < |url| && IsAsciiLetter(url[0]) && (forall k :: 0 <= k < i ==> IsSchemeChar(url[k]))
  }

  /** The scheme as written, before lower-casing; empty when there is none. */
  function RawScheme(url: string): (r: string)
    ensures HasScheme(url) <==> r != ""
  {
    if HasScheme(url) then url[..Find(url, {':'})] else ""
  }

  function SplitScheme(url: string): (r: (string, string))
    ensures forall k :: 0 <= k < |r.0| ==> IsSchemeChar(r.0[k])
    ensures |r.1| <= |url| && r.1 == url[|url| - |r.1|..]
  {
    var i := Find(url, {':'});
    if 0 < i < |url| && IsAsciiLetter(url[0]) && (forall k :: 0 <= k < i ==> IsSchemeChar(url[k]))
    then (Lower(url[..i]), url[i + 1..])
    else ("", url)
  }

  /** The scheme is the lower-cased written scheme, and `:` joins the two back. */
  lemma SplitSchemeParts(url: string)
    ensures SplitScheme(url).0 == Lower(RawScheme(url))
    ensures url == RawScheme(url) + (if RawScheme(url) != "" then ":" else "") + SplitScheme(url).1
  {
    if HasScheme(url) {
      var i := Find(url, {':'});
      assert url == url[..i] + ":" + url[i + 1..];
    }
  }

  /** After `//`, the network location runs up to the first `/`, `?` or `#`. */
  predicate HasSlashes(rest: string)
  {
    |rest| >= 2 && rest[..2] == "//"
  }

  function SplitNetloc(rest: string): (r: (string, string))
    ensures '/' !in r.0 && '?' !in r.0 && '#' !in r.0
    ensures |r.1| <= |rest| && r.1 == rest[|rest| - |r.1|..]
  {
    if |rest| >= 2 && rest[..2] == "//" then
      var d := FindFrom(rest, {'/', '?', '#'}, 2);
      (rest[2..d], rest[d..])
    else ("", rest)
  }

  /** Python's `_splitparams`: cuts at the first ';' of the last path segment
      (or of the whole string when it has no '/'). */
  function SplitParams(p: string): (r: (string, string))
  {
    var i := ParamsAt(p);
    if i == |p| then (p, "") else (p[..i], p[i + 1..])
  }

  /** Where `_splitparams` cuts: the first ';' at or after the last '/', or
      the first ';' of all when there is no '/'; `|p|` when there is none. */
  function ParamsAt(p: string): (i: nat)
    ensures i <= |p|
    ensures i < |p| ==> p[i] == ';'
  {
    if '/' in p then FindFrom(p, {';'}, RFind(p, '/')) else Find(p, {';'})
  }

  /** Whether `urlparse` splits params off `p` under `scheme`. */
  predicate ParamsCut(scheme: string, p: string)
  {
    scheme in UsesParams && ';' in p && ParamsAt(p) < |p|
  }

  /** Cuts `s` at the first character `c`: what precedes it and what follows it. */
  function CutAt(s: string, c: char): (r: (string, string))
    ensures c !in r.0 && r.0 <= s
    ensures c !in s ==> r == (s, "")
  {
    var i := Find(s, {c});
    if i < |s| then (s[..i], s[i + 1..]) else (s, "")
  }

  /** Splits the params off `p` when the scheme uses them. */
  function CutParams(scheme: string, p: string): (r: (string, string))
    ensures r.0 <= p
    ensures ';' !in p ==> r == (p, "")
  {
    if scheme in UsesParams && ';' in p then SplitParams(p) else (p, "")
  }

  /** What follows the scheme and the network location. */
  function AfterNetloc(url: string): (r: string)
    ensures |r| <= |url| && r == url[|url| - |r|..]
  {
    SplitNetloc(SplitScheme(url).1).1
  }

  lemma PrefixKeepsAbsence(p: string, s: string, c: char)
    requires p <= s && c !in s
    ensures c !in p
  {
    forall k | 0 <= k < |p| ensures p[k] != c { assert p[k] == s[k]; }
  }

  lemma SuffixKeepsAbsence(s: string, url: string, c: char)
    requires |s| <= |url| && s == url[|url| - |s|..] && c !in url
    ensures c !in s
  {
    forall k | 0 <= k < |s| ensures s[k] != c { assert s[k] == url[|url| - |s| + k]; }
  }

  /** `urlparse(url)`. */
  function Parse(url: string): (u: Url)
    ensures '/' !in u.netloc && '?' !in u.netloc && '#' !in u.netloc
    ensures '?' !in u.path && '#' !in u.path
    ensures forall k :: 0 <= k < |u.scheme| ==> IsSchemeChar(u.scheme[k])
  {
    var scheme := SchemeOf(url);
    var netloc := SplitNetloc(SplitScheme(url).1).0;
    var rest := AfterNetloc(url);
    var (beforeFragment, fragment) := CutAt(rest, '#');
    var (beforeQuery, query) := CutAt(beforeFragment, '?');
    var (path, params) := CutParams(scheme, beforeQuery);
    PrefixKeepsAbsence(beforeQuery, beforeFragment, '#');
    PrefixKeepsAbsence(path, beforeQuery, '#');
    PrefixKeepsAbsence(path, beforeQuery, '?');
    Url(scheme, netloc, path, params, query, fragment)
  }

  function SchemeOf(url: string): (r: string)
    ensures forall k :: 0 <= k < |r| ==> IsSchemeChar(r[k])
  {
    SplitScheme(url).0
  }

  /** After `//`, the network location and what follows make up the rest. */
  lemma SplitNetlocParts(rest: string)
    ensures rest == (if HasSlashes(rest) then "//" + SplitNetloc(rest).0 else "") + SplitNetloc(rest).1
    ensures !HasSlashes(rest) ==> SplitNetloc(rest).0 == ""
  {
    if HasSlashes(rest) {
      var d := FindFrom(rest, {'/', '?', '#'}, 2);
      assert rest == rest[..2] + rest[2..d] + rest[d..];
    }
  }

  /** What precedes and what follows the first `c` make up `s` again. */
  lemma CutAtParts(s: string, c: char)
    ensures s == CutAt(s, c).0 + (if c in s then [c] + CutAt(s, c).1 else "")
    ensures c !in s ==> CutAt(s, c).1 == ""
  {
    var i := Find(s, {c});
    if i < |s| {
      assert s == s[..i] + [c] + s[i + 1..];
    }
  }

  /** The path and the params make up what precedes the query again. */
  lemma CutParamsParts(scheme: string, p: string)
    ensures p == CutParams(scheme, p).0 + (if ParamsCut(scheme, p) then ";" + CutParams(scheme, p).1 else "")
    ensures !ParamsCut(scheme, p) ==> CutParams(scheme, p).1 == ""
  {
    if ParamsCut(scheme, p) {
      var i := ParamsAt(p);
      assert p == p[..i] + ";" + p[i + 1..];
    }
  }

  /** Where a URL was cut: its scheme as written, and whether the `//` of a
      network location, a `;`, a `?` and a `#` were there. */
  datatype Marks = Marks(rawScheme: string, slashes: bool, semicolon: bool, question: bool, hash: bool)

  function MarksOf(url: string): Marks
  {
    var rest := SplitScheme(url).1;
    var after := SplitNetloc(rest).1;
    var beforeFragment := CutAt(after, '#').0;
    var beforeQuery := CutAt(beforeFragment, '?').0;
    Marks(RawScheme(url), HasSlashes(rest), ParamsCut(SchemeOf(url), beforeQuery),
          '?' in beforeFragment, '#' in after)
  }

  /** The parts of a URL put back together, each after the mark that cut it off. */
  function Unsplit(u: Url, m: Marks): string
  {
    m.rawScheme + (if m.rawScheme != "" then ":" else "") + (if m.slashes then "//" + u.netloc else "") +
    u.path + (if m.semicolon then ";" + u.params else "") + (if m.question then "?" + u.query else "") +
    (if m.hash then "#" + u.fragment else "")
  }

  /** `urlparse(url)`, stage by stage. */
  lemma ParseStages(url: string)
    ensures var rest := SplitScheme(url).1;
      var after := SplitNetloc(rest).1;
      var beforeFragment := CutAt(after, '#').0;
      var beforeQuery := CutAt(beforeFragment, '?').0;
      Parse(url) == Url(SchemeOf(url), SplitNetloc(rest).0, CutParams(SchemeOf(url), beforeQuery).0,
                        CutParams(SchemeOf(url), beforeQuery).1, CutAt(beforeFragment, '?').1,
                        CutAt(after, '#').1) &&
      MarksOf(url) == Marks(RawScheme(url), HasSlashes(rest), ParamsCut(SchemeOf(url), beforeQuery),
                            '?' in beforeFragment, '#' in after)
  {
  }

  /** Stages that each make up the one before them, behind the marks of `m`,
      spell the whole again. */
  lemma Reassemble(url: string, u: Url, m: Marks, rest: string, after: string, beforeFragment: string,
                   beforeQuery: string)
    requires url == m.rawScheme + (if m.rawScheme != "" then ":" else "") + rest
    requires rest == (if m.slashes then "//" + u.netloc else "") + after
    requires after == beforeFragment + (if m.hash then "#" + u.fragment else "")
    requires beforeFragment == beforeQuery + (if m.question then "?" + u.query else "")
    requires beforeQuery == u.path + (if m.semicolon then ";" + u.params else "")
    ensures Unsplit(u, m) == url
  {
    var a := m.rawScheme + (if m.rawScheme != "" then ":" else "");
    var n := if m.slashes then "//" + u.netloc else "";
    var sp := if m.semicolon then ";" + u.params else "";
    var q := if m.question then "?" + u.query else "";
    var h := if m.hash then "#" + u.fragment else "";
    Concat6(url, a, rest, n, after, beforeFragment, beforeQuery, u.path, sp, q, h);
  }

  lemma Concat6(url: string, a: string, rest: string, n: string, after: string, beforeFragment: string,
                beforeQuery: string, path: string, sp: string, q: string, h: string)
    requires url == a + rest && rest == n + after && after == beforeFragment + h
    requires beforeFragment == beforeQuery + q && beforeQuery == path + sp
    ensures url == a + n + path + sp + q + h
  {
  }

  /** The scheme as written and `:` come before the rest. */
  lemma SchemeStage(url: string)
    ensures url == MarksOf(url).rawScheme + (if MarksOf(url).rawScheme != "" then ":" else "") + SplitScheme(url).1
    ensures Parse(url).scheme == Lower(MarksOf(url).rawScheme)
  {
    ParseStages(url);
    SplitSchemeParts(url);
  }

  /** The network location, behind its `//`, comes before what follows it. */
  lemma NetlocStage(url: string)
    ensures var rest := SplitScheme(url).1;
      rest == (if MarksOf(url).slashes then "//" + Parse(url).netloc else "") + SplitNetloc(rest).1
    ensures !MarksOf(url).slashes ==> Parse(url).netloc == ""
  {
    ParseStages(url);
    SplitNetlocParts(SplitScheme(url).1);
  }

  /** The fragment, behind its `#`, ends what follows the network location. */
  lemma FragmentStage(url: string)
    ensures var after := SplitNetloc(SplitScheme(url).1).1;
      after == CutAt(after, '#').0 + (if MarksOf(url).hash then "#" + Parse(url).fragment else "")
    ensures !MarksOf(url).hash ==> Parse(url).fragment == ""
  {
    ParseStages(url);
    CutAtParts(SplitNetloc(SplitScheme(url).1).1, '#');
  }

  /** The query, behind its `?`, ends what precedes the fragment. */
  lemma QueryStage(url: string)
    ensures var beforeFragment := CutAt(SplitNetloc(SplitScheme(url).1).1, '#').0;
      beforeFragment == CutAt(beforeFragment, '?').0 + (if MarksOf(url).question then "?" + Parse(url).query else "")
    ensures !MarksOf(url).question ==> Parse(url).query == ""
  {
    ParseStages(url);
    CutAtParts(CutAt(SplitNetloc(SplitScheme(url).1).1, '#').0, '?');
  }

  /** The params, behind their `;`, end what precedes the query. */
  lemma ParamsStage(url: string)
    ensures var beforeQuery := CutAt(CutAt(SplitNetloc(SplitScheme(url).1).1, '#').0, '?').0;
      beforeQuery == Parse(url).path + (if MarksOf(url).semicolon then ";" + Parse(url).params else "")
    ensures !MarksOf(url).semicolon ==> Parse(url).params == ""
  {
    ParseStages(url);
    CutParamsParts(SchemeOf(url), CutAt(CutAt(SplitNetloc(SplitScheme(url).1).1, '#').0, '?').0);
  }

  /** `urlparse` loses nothing but the case of the scheme: its parts, each
      behind the mark it was cut at, spell the URL again, and a part whose
      mark is absent is empty. */
  lemma ParseRoundTrip(url: string)
    ensures Unsplit(Parse(url), MarksOf(url)) == url
    ensures Parse(url).scheme == Lower(MarksOf(url).rawScheme)
    ensures var u, m := Parse(url), MarksOf(url);
      (!m.slashes ==> u.netloc == "") && (!m.semicolon ==> u.params == "") &&
      (!m.question ==> u.query == "") && (!m.hash ==> u.fragment == "")
  {
    var rest := SplitScheme(url).1;
    var after := SplitNetloc(rest).1;
    var beforeFragment := CutAt(after, '#').0;
    SchemeStage(url);
    NetlocStage(url);
    FragmentStage(url);
    QueryStage(url);
    ParamsStage(url);
    Reassemble(url, Parse(url), MarksOf(url), rest, after, beforeFragment, CutAt(beforeFragment, '?').0);
  }

  /** Without a query, a fragment or parameters, the parsed path is the tail of
      the URL itself. */
  lemma PathIsSuffix(url: string)
    requires '?' !in url && '#' !in url && ';' !in url
    ensures var p := Parse(url).path; |p| <= |url| && url[|url| - |p|..] == p
  {
    var rest := AfterNetloc(url);
    SuffixKeepsAbsence(rest, url, '#');
    SuffixKeepsAbsence(rest, url, '?');
    SuffixKeepsAbsence(rest, url, ';');
    assert CutAt(rest, '#') == (rest, "");
    assert CutAt(rest, '?') == (rest, "");
    assert CutParams(SchemeOf(url), rest) == (rest, "");
  }

  /** Cutting at the first `c` of `a + [c] + b` gives back `a` and `b`. */
  lemma CutAtFirst(a: string, c: char, b: string)
    requires c !in a
    ensures CutAt(a + [c] + b, c) == (a, b)
  {
    var s := a + [c] + b;
    assert forall k :: 0 <= k < |a| ==> s[k] == a[k];
    assert s[|a|] == c;
    assert Find(s, {c}) == |a|;
    assert s[..|a|] == a;
    assert s[|a| + 1..] == b;
  }

  /** When what follows the network location is a plain path and a query, the
      parsed path is that path. */
  lemma ParsedPathBeforeQuery(url: string, path: string, query: string)
    requires AfterNetloc(url) == path + "?" + query
    requires '?' !in path && '#' !in path && ';' !in path && '#' !in query
    ensures Parse(url).path == path
  {
    var rest := path + "?" + query;
    assert '#' !in rest by {
      forall k | 0 <= k < |rest| ensures rest[k] != '#' {
        if k < |path| {
          assert rest[k] == path[k];
        } else if k > |path| {
          assert rest[k] == query[k - |path| - 1];
        }
      }
    }
    assert CutAt(rest, '#') == (rest, "");
    CutAtFirst(path, '?', query);
    assert CutParams(SchemeOf(url), path) == (path, "");
  }

  /** When what follows the network location is a plain path, the parsed path
      is all of it. */
  lemma ParsedPathPlain(url: string, path: string)
    requires AfterNetloc(url) == path
    requires '?' !in path && '#' !in path && ';' !in path
    ensures Parse(url).path == path
  {
    assert CutAt(path, '#') == (path, "");
    assert CutAt(path, '?') == (path, "");
    assert CutParams(SchemeOf(url), path) == (path, "");
  }
}
