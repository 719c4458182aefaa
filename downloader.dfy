/** The resource downloader: one streaming GET whose response picks a file name
    (Content-Disposition, then the final URL, then a timestamp), and a
    skip-if-present, chunk-by-chunk write into the course folder. */
module Downloader {
  import opened Strings
  import opened Urls
  import opened Classifier

  type Byte = b: int | 0 <= b < 256

  /** A course folder: file names to file contents. */
  type Folder = map<string, seq<Byte>>

  /** An HTTP response after redirects: its status, its `Content-Disposition`
      header if any, its final URL and its body as the chunks the stream
      delivers; `broken` says the stream raised after the last of them. */
  datatype Response = Response(status: int, disposition: Option<string>, url: string,
                               chunks: seq<seq<Byte>>, broken: bool)

  /** What `session.get` gives: a response, or an exception before one arrived. */
  datatype Fetch = ConnectionFailed | Received(response: Response)

  /** The per-resource outcome: written, skipped because present, or a failure
      that was caught and logged. */
  datatype Outcome = Saved(name: string) | SkippedExisting(name: string) | Failed

  /** `raise_for_status` raises for the client and server error classes. */
  predicate IsErrorStatus(status: int)
  {
    400 <= status < 600
  }

  // ------------------------------------------------ Content-Disposition

  predicate NotQuote(c: char) { c != '"' }

  /** The pattern `filename="?([^"]+)"?` matches at index `i`: `filename=`,
      then either a non-quote, or a quote followed by a non-quote. */
  predicate FilenameMatchAt(cd: string, i: int)
  {
    OccursAt(cd, "filename=", i) &&
    ((i + 9 < |cd| && cd[i + 9] != '"') || (i + 10 < |cd| && cd[i + 9] == '"' && cd[i + 10] != '"'))
  }

  /** Where the captured group of a match at `i` starts: past the optional quote. */
  function GroupStart(cd: string, i: int): (s: nat)
    requires FilenameMatchAt(cd, i)
    ensures s < |cd| && cd[s] != '"'
  {
    if cd[i + 9] == '"' then i + 10 else i + 9
  }

  /** The leftmost match at or after `from`. */
  function FindFilenameMatch(cd: string, from: nat): (r: Option<nat>)
    ensures r.Some? ==> from <= r.value && FilenameMatchAt(cd, r.value)
                        && forall j :: from <= j < r.value ==> !FilenameMatchAt(cd, j)
    ensures r.None? ==> forall j :: from <= j ==> !FilenameMatchAt(cd, j)
    decreases |cd| - from
  {
    if from + 9 >= |cd| then None
    else if FilenameMatchAt(cd, from) then Some(from)
    else FindFilenameMatch(cd, from + 1)
  }

  /** `re.findall(r'filename="?([^"]+)"?', cd)[0]`, or `None` when nothing
      matches: the greedy run of non-quote characters of the leftmost match.
      A match always captures a non-empty name without quotes, which starts
      past `filename=` and the optional quote of the leftmost match and runs
      to the next quote or to the end of the header. */
  function FirstFilename(cd: string): (r: Option<string>)
    ensures r.None? <==> forall i :: !FilenameMatchAt(cd, i)
    ensures r.Some? ==> r.value != "" && '"' !in r.value
    ensures r.Some? ==>
      exists i :: FilenameMatchAt(cd, i) && (forall j :: 0 <= j < i ==> !FilenameMatchAt(cd, j)) &&
        RunEndsAt(cd, GroupStart(cd, i), r.value)
  {
    match FindFilenameMatch(cd, 0)
    case Some(i) =>
      var s := GroupStart(cd, i);
      var e := SpanFrom(cd, NotQuote, s);
      assert forall k :: 0 <= k < e - s ==> cd[s..e][k] == cd[s + k];
      assert s + |cd[s..e]| == e;
      assert RunEndsAt(cd, s, cd[s..e]);
      Some(cd[s..e])
    case None => None
  }

  /** `name` sits in `cd` from `s` and is followed by a quote or by the end. */
  predicate RunEndsAt(cd: string, s: nat, name: string)
  {
    s + |name| <= |cd| && cd[s..s + |name|] == name && (s + |name| == |cd| || cd[s + |name|] == '"')
  }

  /** The run of non-quotes from `s` stops exactly where `name` ends, at a
      quote or at the end of the text. */
  lemma QuoteFreeRunEnds(cd: string, s: nat, name: string)
    requires s + |name| <= |cd| && cd[s..s + |name|] == name
    requires s + |name| == |cd| || cd[s + |name|] == '"'
    requires '"' !in name
    ensures SpanFrom(cd, NotQuote, s) == s + |name|
  {
    forall k | s <= k < s + |name| ensures cd[k] != '"' {
      assert cd[k] == name[k - s];
    }
  }

  /** The header shapes `filename="name"` and `filename=name`, after a prefix
      in which no `filename=` starts, yield `name` when a quote or the end of
      the header follows it. Everything up to that point is captured, so
      `filename=a.pdf; size=3` yields `a.pdf; size=3`. */
  lemma DispositionName(prefix: string, name: string, quoted: bool, tail: string)
    requires name != "" && '"' !in name
    requires forall j :: 0 <= j < |prefix| ==> prefix[j] != 'f'
    requires tail == "" || tail[0] == '"'
    ensures var q := if quoted then "\"" else "";
      FirstFilename(prefix + "filename=" + q + name + tail) == Some(name)
  {
    var q := if quoted then "\"" else "";
    var cd := prefix + "filename=" + q + name + tail;
    var i := |prefix|;
    var s := i + 9 + |q|;
    assert cd[i..i + 9] == "filename=";
    assert cd[s..s + |name|] == name;
    assert cd[s] == name[0];
    assert s + |name| < |cd| ==> cd[s + |name|] == tail[0];
    assert FilenameMatchAt(cd, i);
    forall j | 0 <= j < i ensures !FilenameMatchAt(cd, j) {
      assert cd[j] == prefix[j];
      assert cd[j..j + 9][0] == cd[j];
    }
    assert FindFilenameMatch(cd, 0) == Some(i);
    assert GroupStart(cd, i) == s;
    QuoteFreeRunEnds(cd, s, name);
  }

  /** An unquoted name that ends the header is captured up to the end,
      parameters after it included. */
  lemma DispositionKeepsParameters()
    ensures FirstFilename("attachment; " + "filename=" + "a.pdf; size=3") == Some("a.pdf; size=3")
  {
    var prefix, name := "attachment; ", "a.pdf; size=3";
    assert forall j :: 0 <= j < |prefix| ==> prefix[j] != 'f';
    assert '"' !in name;
    DispositionName(prefix, name, false, "");
    assert prefix + "filename=" + "" + name + "" == prefix + "filename=" + name;
  }

  // ------------------------------------------------------ URL fallback

  predicate IsHexDigit(c: char)
  {
    IsDigit(c) || 'a' <= c <= 'f' || 'A' <= c <= 'F'
  }

  function HexValue(c: char): (v: nat)
    requires IsHexDigit(c)
    ensures v < 16
  {
    if IsDigit(c) then c as int - '0' as int
    else if 'a' <= c <= 'f' then c as int - 'a' as int + 10
    else c as int - 'A' as int + 10
  }

  function HexDigit(v: nat): (c: char)
    requires v < 16
    ensures IsHexDigit(c) && HexValue(c) == v
  {
    if v < 10 then ('0' as int + v) as char else ('A' as int + v - 10) as char
  }

  /** `unquote`: every `%XX` with two hex digits stands for the character with
      code XX; any other `%` is kept as it is. */
  function PercentDecode(s: string): (r: string)
    ensures |r| <= |s|
    decreases |s|
  {
    if s == [] then []
    else if |s| >= 3 && s[0] == '%' && IsHexDigit(s[1]) && IsHexDigit(s[2]) then
      [(16 * HexValue(s[1]) + HexValue(s[2])) as char] + PercentDecode(s[3..])
    else [s[0]] + PercentDecode(s[1..])
  }

  /** Quotes every '%' as `%25`, the least encoding `unquote` inverts. */
  function QuotePercent(s: string): (r: string)
    ensures '%' in s || r == s
    decreases |s|
  {
    if s == [] then []
    else if s[0] == '%' then "%25" + QuotePercent(s[1..])
    else [s[0]] + QuotePercent(s[1..])
  }

  /** Decoding undoes quoting: a decoded `%25` is a literal '%' and never starts
      another escape. */
  lemma {:induction false} DecodeQuoted(s: string)
    ensures PercentDecode(QuotePercent(s)) == s
    decreases |s|
  {
    if s != [] {
      DecodeQuoted(s[1..]);
      var t := QuotePercent(s[1..]);
      if s[0] == '%' {
        assert QuotePercent(s) == "%25" + t;
        assert ("%25" + t)[3..] == t;
        assert (16 * HexValue('2') + HexValue('5')) as char == '%';
      } else {
        assert QuotePercent(s) == [s[0]] + t;
        assert ([s[0]] + t)[1..] == t;
      }
    }
  }

  /** Text without '%' decodes to itself. */
  lemma {:induction false} DecodePlain(s: string)
    requires '%' !in s
    ensures PercentDecode(s) == s
    decreases |s|
  {
    if s != [] {
      assert '%' !in s[1..] by {
        forall k | 0 <= k < |s| - 1 ensures s[1..][k] != '%' { assert s[1..][k] == s[k + 1]; }
      }
      DecodePlain(s[1..]);
    }
  }

  /** `os.path.basename`: what follows the last '/'. */
  function Basename(p: string): (r: string)
    ensures '/' !in r
    ensures |r| <= |p| && r == p[|p| - |r|..]
    ensures '/' in p ==> p[|p| - |r| - 1] == '/'
    ensures '/' !in p ==> r == p
  {
    if '/' in p then
      var i := RFind(p, '/');
      var r := p[i + 1..];
      assert forall k :: 0 <= k < |r| ==> r[k] == p[i + 1 + k];
      r
    else p
  }

  /** The name the final URL offers: the basename of its percent-decoded path. */
  function UrlFilename(url: string): (r: string)
    ensures '/' !in r
  {
    Basename(PercentDecode(Parse(url).path))
  }

  /** `resource_{t}.dat`, the name of last resort. */
  function TimestampName(now: nat): (r: string)
    ensures r != "" && r != "download"
  {
    "resource_" + NatToString(now) + ".dat"
  }

  /** The three sources, in priority order: the header's first match, the
      final URL's basename, and the timestamp name when what came before is
      empty or exactly `download`. */
  function ChooseName(resp: Response, now: nat): (r: string)
    ensures r != "" && r != "download"
  {
    var fromHeader := if resp.disposition.Some? then FirstFilename(resp.disposition.value) else None;
    var name := if fromHeader.Some? then fromHeader.value else UrlFilename(resp.url);
    if name == "" || name == "download" then TimestampName(now) else name
  }

  /** The file name a response is saved under. */
  function ResolveName(resp: Response, now: nat): (r: string)
    ensures forall k :: 0 <= k < |r| ==> r[k] !in IllegalChars
    ensures r == [] || (!IsSpace(r[0]) && !IsSpace(r[|r| - 1]))
  {
    SanitizeFilename(ChooseName(resp, now))
  }

  /** A header match wins over the URL, unless it is exactly `download`. */
  lemma HeaderWins(resp: Response, now: nat)
    requires resp.disposition.Some? && FirstFilename(resp.disposition.value).Some?
    requires FirstFilename(resp.disposition.value).value != "download"
    ensures ResolveName(resp, now) == SanitizeFilename(FirstFilename(resp.disposition.value).value)
  {
  }

  /** Without a header match the URL's basename is used, unless it is empty or
      exactly `download`. */
  lemma UrlFallback(resp: Response, now: nat)
    requires resp.disposition.None? || FirstFilename(resp.disposition.value).None?
    requires UrlFilename(resp.url) != "" && UrlFilename(resp.url) != "download"
    ensures ResolveName(resp, now) == SanitizeFilename(UrlFilename(resp.url))
  {
  }

  /** The time matters to the name only when neither earlier source gave
      a usable one. */
  predicate UsesTimestamp(resp: Response)
  {
    var fromHeader := if resp.disposition.Some? then FirstFilename(resp.disposition.value) else None;
    var name := if fromHeader.Some? then fromHeader.value else UrlFilename(resp.url);
    name == "" || name == "download"
  }

  lemma TimestampFallback(resp: Response, now: nat)
    requires UsesTimestamp(resp)
    ensures ResolveName(resp, now) == SanitizeFilename(TimestampName(now))
  {
  }

  lemma NameIgnoresClock(resp: Response, now: nat, later: nat)
    requires !UsesTimestamp(resp)
    ensures ResolveName(resp, now) == ResolveName(resp, later)
  {
  }

  /** The basename of a path is its last segment: what follows a '/' after
      which no other comes. */
  lemma BasenameOfLastSegment(a: string, b: string)
    requires |b| > 0 && b[0] == '/' && '/' !in b[1..]
    ensures Basename(a + b) == b[1..]
  {
    var p := a + b;
    var t := b[1..];
    assert p[|a|] == '/';
    assert p[|a| + 1..] == t;
  }

  /** A path ending in the segment `/download` has basename `download`. */
  lemma DownloadPathBasename(front: string)
    requires '%' !in front
    ensures Basename(PercentDecode(front + "/download")) == "download"
  {
    var b := "/download";
    assert b[0] == '/' && b[1..] == "download";
    assert '%' !in b && '/' !in b[1..];
    var p := front + b;
    assert '%' !in p;
    DecodePlain(p);
    BasenameOfLastSegment(front, b);
  }

  /** The response to a canonical endpoint, without a usable header, is saved
      under the timestamp name: the URL's basename is `download`. */
  lemma EndpointGetsTimestampName(domain: string, cid: string, id: string, resp: Response, now: nat)
    requires '/' !in domain && '?' !in domain && '#' !in domain
    requires AllDigits(cid) && AllDigits(id)
    requires resp.disposition.None? || FirstFilename(resp.disposition.value).None?
    requires resp.url == DownloadEndpoint(domain, cid, id)
    ensures UsesTimestamp(resp) && ResolveName(resp, now) == TimestampName(now)
  {
    EndpointUrlFilename(domain, cid, id);
    TimestampNameClean(now);
  }

  lemma EndpointUrlFilename(domain: string, cid: string, id: string)
    requires '/' !in domain && '?' !in domain && '#' !in domain
    requires AllDigits(cid) && AllDigits(id)
    ensures UrlFilename(DownloadEndpoint(domain, cid, id)) == "download"
  {
    EndpointParsedPath(domain, cid, id);
    var front := "/courses/" + cid + "/files/" + id;
    EndpointFrontPlain(cid, id, front);
    DownloadPathBasename(front);
  }

  lemma EndpointFrontPlain(cid: string, id: string, front: string)
    requires AllDigits(cid) && AllDigits(id)
    requires front == "/courses/" + cid + "/files/" + id
    ensures '%' !in front && EndpointPath(cid, id) == front + "/download"
  {
    EndpointPathPlain(cid, id);
    assert forall k :: 0 <= k < |front| ==> front[k] == EndpointPath(cid, id)[k];
  }

  // ------------------------------------------------------------- the write

  /** The bytes of the chunks, in order. */
  function Concat(chunks: seq<seq<Byte>>): (r: seq<Byte>)
    ensures chunks == [] ==> r == []
  {
    if chunks == [] then [] else Concat(chunks[..|chunks| - 1]) + chunks[|chunks| - 1]
  }

  /** One more chunk appends its bytes. */
  lemma ConcatSnoc(chunks: seq<seq<Byte>>, i: nat)
    requires i < |chunks|
    ensures Concat(chunks[..i + 1]) == Concat(chunks[..i]) + chunks[i]
  {
    assert chunks[..i + 1][..i] == chunks[..i];
  }

  /** `os.path.exists(os.path.join(folder, name))`: the names of the folder
      itself and of its parent always exist. */
  predicate Exists(folder: Folder, name: string)
  {
    name == "" || name == "." || name == ".." || name in folder
  }

  /** What `download_resource` does to the folder and what it reports. An
      exception or an error status changes nothing; a present name is
      skipped; otherwise the name is created and the chunks are appended to
      it, the stream's failure leaving the partial file behind. */
  function Download(fetch: Fetch, folder: Folder, now: nat): (r: (Outcome, Folder))
  {
    Store(fetch, NameFor(fetch, now), folder)
  }

  /** The name a response resolves to; none is needed without one. */
  function NameFor(fetch: Fetch, now: nat): string
  {
    if fetch.Received? then ResolveName(fetch.response, now) else ""
  }

  /** The part of `download_resource` after the name is known. */
  function Store(fetch: Fetch, name: string, folder: Folder): (r: (Outcome, Folder))
  {
    if fetch.ConnectionFailed? || IsErrorStatus(fetch.response.status) then (Failed, folder)
    else if Exists(folder, name) then (SkippedExisting(name), folder)
    else (if fetch.response.broken then Failed else Saved(name), folder[name := Concat(fetch.response.chunks)])
  }

  /** A download adds at most its own name and never changes a file that was
      already there. */
  lemma DownloadNeverOverwrites(fetch: Fetch, folder: Folder, now: nat)
    ensures var after := Download(fetch, folder, now).1;
      (forall n :: n in folder ==> n in after && after[n] == folder[n]) &&
      (forall n :: n in after && n !in folder ==>
         fetch.Received? && n == ResolveName(fetch.response, now) && after[n] == Concat(fetch.response.chunks))
  {
  }

  /** A failure before the body (no response, or an error status) leaves the
      folder as it was. */
  lemma ErrorLeavesFolder(fetch: Fetch, folder: Folder, now: nat)
    requires fetch.ConnectionFailed? || IsErrorStatus(fetch.response.status)
    ensures Download(fetch, folder, now) == (Failed, folder)
  {
  }

  /** A successful download stores the whole body under the resolved name. */
  lemma SavedHoldsBody(fetch: Fetch, folder: Folder, now: nat)
    requires Download(fetch, folder, now).0.Saved?
    ensures var name := Download(fetch, folder, now).0.name; var after := Download(fetch, folder, now).1;
      fetch.Received? && !IsErrorStatus(fetch.response.status) && !fetch.response.broken &&
      name == ResolveName(fetch.response, now) && name !in folder &&
      after == folder[name := Concat(fetch.response.chunks)]
  {
  }

  /** Storing the same answer under the same name twice: the second time
      writes nothing. */
  lemma StoreTwice(fetch: Fetch, name: string, folder: Folder)
    ensures var once := Store(fetch, name, folder).1;
      Store(fetch, name, once).1 == once && !Store(fetch, name, once).0.Saved?
  {
    var once := Store(fetch, name, folder).1;
    if !(fetch.ConnectionFailed? || IsErrorStatus(fetch.response.status)) {
      assert Exists(once, name);
    }
  }

  /** Running a download again at the same clock reading writes nothing more:
      whatever the first run left, the second leaves. */
  lemma DownloadIdempotent(fetch: Fetch, folder: Folder, now: nat)
    ensures var once := Download(fetch, folder, now).1;
      Download(fetch, once, now).1 == once && !Download(fetch, once, now).0.Saved?
  {
    StoreTwice(fetch, NameFor(fetch, now), folder);
  }

  /** A second run whose name is the first run's is a skip or a failure and
      changes nothing. */
  lemma RerunSameName(fetch: Fetch, folder: Folder, now: nat, later: nat)
    requires fetch.Received? ==> ResolveName(fetch.response, now) == ResolveName(fetch.response, later)
    ensures var once := Download(fetch, folder, now).1;
      Download(fetch, once, later).1 == once && !Download(fetch, once, later).0.Saved?
  {
    assert NameFor(fetch, later) == NameFor(fetch, now);
    StoreTwice(fetch, NameFor(fetch, now), folder);
  }

  /** When the name does not depend on the clock, a second run at any time is
      a skip or a failure and changes nothing. */
  lemma RerunSkips(fetch: Fetch, folder: Folder, now: nat, later: nat)
    requires fetch.Received? && !UsesTimestamp(fetch.response)
    ensures var once := Download(fetch, folder, now).1;
      Download(fetch, once, later).1 == once && !Download(fetch, once, later).0.Saved?
  {
    NameIgnoresClock(fetch.response, now, later);
    RerunSameName(fetch, folder, now, later);
  }

  /** A timestamp name is already sanitised. */
  lemma TimestampNameClean(now: nat)
    ensures SanitizeFilename(TimestampName(now)) == TimestampName(now)
  {
    var d := NatToString(now);
    var t := TimestampName(now);
    forall k | 0 <= k < |t| ensures t[k] !in IllegalChars && !IsSpace(t[k]) {
      if 9 <= k < 9 + |d| {
        assert t[k] == d[k - 9];
      }
    }
    SanitizeFixpoint(t);
  }

  /** Two clock readings give two different timestamp names. */
  lemma TimestampNamesDiffer(now: nat, later: nat)
    requires now != later
    ensures SanitizeFilename(TimestampName(now)) != SanitizeFilename(TimestampName(later))
  {
    TimestampNameClean(now);
    TimestampNameClean(later);
    var a := NatToString(now);
    var b := NatToString(later);
    if TimestampName(now) == TimestampName(later) {
      assert a == TimestampName(now)[9..9 + |a|];
      assert |a| == |b|;
      assert b == TimestampName(later)[9..9 + |b|];
      NatToStringInjective(now, later);
    }
  }

  /** A rerun in a later second computes a new timestamp name, so a response
      that is named after the clock is saved again, beside the first copy,
      unless that new name is already present. */
  lemma TimestampRerunSaves(fetch: Fetch, folder: Folder, now: nat, later: nat)
    requires fetch.Received? && !IsErrorStatus(fetch.response.status) && !fetch.response.broken
    requires UsesTimestamp(fetch.response) && now != later
    requires TimestampName(later) !in folder
    ensures var once := Download(fetch, folder, now).1;
      Download(fetch, once, later) == (Saved(TimestampName(later)), once[TimestampName(later) := Concat(fetch.response.chunks)])
  {
    TimestampFallback(fetch.response, now);
    TimestampFallback(fetch.response, later);
    TimestampNameClean(now);
    TimestampNameClean(later);
    TimestampNamesDiffer(now, later);
    var once := Download(fetch, folder, now).1;
    assert TimestampName(later) !in once;
  }

  /** Two resources that both fall back to a timestamp name within the same
      clock reading share that name, so the second is skipped as present. */
  lemma SameSecondCollides(first: Fetch, second: Fetch, folder: Folder, now: nat)
    requires first.Received? && !IsErrorStatus(first.response.status) && UsesTimestamp(first.response)
    requires second.Received? && !IsErrorStatus(second.response.status) && UsesTimestamp(second.response)
    ensures var once := Download(first, folder, now).1;
      Download(second, once, now) == (SkippedExisting(TimestampName(now)), once)
  {
    TimestampFallback(first.response, now);
    TimestampFallback(second.response, now);
    TimestampNameClean(now);
    assert Exists(Download(first, folder, now).1, TimestampName(now));
  }

  /** The `with open(file_path, 'wb')` block: the file is created empty and
      each chunk is appended in turn; nothing else in the folder changes. */
  method WriteChunks(folder: Folder, name: string, chunks: seq<seq<Byte>>) returns (after: Folder)
    ensures after == folder[name := Concat(chunks)]
  {
    after := folder[name := []];
    var i := 0;
    while i < |chunks|
      invariant 0 <= i <= |chunks|
      invariant after == folder[name := Concat(chunks[..i])]
    {
      ConcatSnoc(chunks, i);
      after := after[name := after[name] + chunks[i]];
      i := i + 1;
    }
    assert chunks[..i] == chunks;
  }

  /** `download_resource`: the status check, the name, the existence test,
      then the write. */
  method DownloadResource(fetch: Fetch, folder: Folder, now: nat) returns (outcome: Outcome, after: Folder)
    ensures (outcome, after) == Download(fetch, folder, now)
  {
    if fetch.ConnectionFailed? || IsErrorStatus(fetch.response.status) {
      return Failed, folder;
    }
    var resp := fetch.response;
    var name := ResolveName(resp, now);
    if Exists(folder, name) {
      return SkippedExisting(name), folder;
    }
    after := WriteChunks(folder, name, resp.chunks);
    outcome := if resp.broken then Failed else Saved(name);
  }
}
