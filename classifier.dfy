/** The URL classifiers and normalisers of the scraper: file-name sanitising,
    the canonical download endpoint of a Canvas file, and the external, media
    and direct-media tests. */
module Classifier {
  import opened Strings
  import opened Urls

  /** The extensions of files that can be downloaded as media. */
  const DirectMediaExts: seq<string> := [".mp4", ".mp3", ".wav", ".m4a", ".mov", ".avi", ".webm", ".mkv"]

  /** The extensions that mark a media URL: the direct ones and HLS playlists. */
  const MediaExts: seq<string> := DirectMediaExts + [".m3u8"]

  /** Hosts whose pages are media players. */
  const MediaHosts: seq<string> := ["youtube.com", "youtu.be", "vimeo.com", "instructuremedia.com",
    "panopto.com", "zoom.us", "kaltura.com"]

  /** Characters that may not appear in a file name. */
  const IllegalChars: set<char> := {'<', '>', ':', '"', '/', '\\', '|', '?', '*'}

  // ---------------------------------------------------------------- file names

  /** Every illegal character becomes '_'; every other character stays. */
  function ReplaceIllegal(s: string): (r: string)
    ensures |r| == |s|
    ensures forall k :: 0 <= k < |r| ==> r[k] !in IllegalChars
    ensures forall k :: 0 <= k < |s| && s[k] !in IllegalChars ==> r[k] == s[k]
    ensures forall k :: 0 <= k < |s| && s[k] in IllegalChars ==> r[k] == '_'
  {
    seq(|s|, k requires 0 <= k < |s| => if s[k] in IllegalChars then '_' else s[k])
  }

  /** `sanitize_filename`: every illegal character becomes '_', then the
      surrounding whitespace is stripped. */
  function SanitizeFilename(name: string): (r: string)
    ensures forall k :: 0 <= k < |r| ==> r[k] !in IllegalChars
    ensures r == [] || (!IsSpace(r[0]) && !IsSpace(r[|r| - 1]))
    ensures |r| <= |name|
  {
    StrippedLegal(name);
    Strip(ReplaceIllegal(name))
  }

  /** Stripping keeps a slice of the replaced name, so no illegal character. */
  lemma StrippedLegal(name: string)
    ensures var r := Strip(ReplaceIllegal(name));
      |r| <= |name| && forall k :: 0 <= k < |r| ==> r[k] !in IllegalChars
  {
    var replaced := ReplaceIllegal(name);
    var r := Strip(replaced);
    var lo := TrimLo(replaced, IsSpace);
    forall k | 0 <= k < |r| ensures r[k] !in IllegalChars {
      assert r[k] == replaced[lo + k];
    }
  }

  /** A name without illegal characters and without surrounding whitespace is
      left as it is. */
  lemma SanitizeFixpoint(name: string)
    requires forall k :: 0 <= k < |name| ==> name[k] !in IllegalChars
    requires name == [] || (!IsSpace(name[0]) && !IsSpace(name[|name| - 1]))
    ensures SanitizeFilename(name) == name
  {
    assert ReplaceIllegal(name) == name;
    TrimNoop(name, IsSpace);
  }

  lemma SanitizeIdempotent(name: string)
    ensures SanitizeFilename(SanitizeFilename(name)) == SanitizeFilename(name)
  {
    SanitizeFixpoint(SanitizeFilename(name));
  }

  /** Inside the kept part, every illegal character of the input stands as '_'
      and every other character is unchanged. */
  lemma SanitizeReplaces(name: string)
    ensures var r := SanitizeFilename(name); var off := TrimLo(ReplaceIllegal(name), IsSpace);
      forall k :: 0 <= k < |r| ==>
        (0 <= off + k < |name| && r[k] == if name[off + k] in IllegalChars then '_' else name[off + k])
  {
  }

  // ------------------------------------------------------------ classification

  /** `is_direct_media_file`: the lower-cased path ends in a direct media extension. */
  predicate IsDirectMediaFile(url: string)
  {
    url != "" && EndsWithAny(Lower(Parse(url).path), DirectMediaExts)
  }

  /** `is_external_url`: the URL has a network location that does not contain
      `instructure.com`. */
  predicate IsExternalUrl(url: string)
  {
    url != "" && Parse(url).netloc != "" && !Contains(Parse(url).netloc, "instructure.com")
  }

  /** `is_media_url`: the whole lower-cased URL ends in a media extension, or the
      network location contains one of the media hosts. */
  predicate IsMediaUrl(url: string)
  {
    url != "" &&
    (EndsWithAny(Lower(url), MediaExts) || exists h :: h in MediaHosts && Contains(Parse(url).netloc, h))
  }

  lemma LowerSuffix(s: string, t: string)
    requires |t| <= |s| && s[|s| - |t|..] == t
    ensures Lower(s)[|s| - |t|..] == Lower(t)
  {
  }

  /** A URL whose lower-cased text ends in `.m3u8` is a media URL. */
  lemma PlaylistIsMedia(url: string)
    requires EndsWith(Lower(url), ".m3u8")
    ensures IsMediaUrl(url)
  {
    assert ".m3u8" in MediaExts;
  }

  lemma EndsWithLast(p: string, e: string)
    requires e != [] && EndsWith(p, e)
    ensures p[|p| - 1] == e[|e| - 1]
  {
    assert p[|p| - |e|..][|e| - 1] == p[|p| - 1];
  }

  lemma NoDirectExtEndsIn8()
    ensures forall e :: e in DirectMediaExts ==> e != [] && e[|e| - 1] != '8'
  {
  }

  /** A URL whose lower-cased path ends in `.m3u8` is never a direct media file. */
  lemma PlaylistIsNotDirect(url: string)
    requires EndsWith(Lower(Parse(url).path), ".m3u8")
    ensures !IsDirectMediaFile(url)
  {
    var p := Lower(Parse(url).path);
    EndsWithLast(p, ".m3u8");
    NoDirectExtEndsIn8();
    forall e | e in DirectMediaExts ensures !EndsWith(p, e) {
      if EndsWith(p, e) {
        EndsWithLast(p, e);
      }
    }
  }

  /** A string ending in a suffix whose lower-cased form ends in `e` ends,
      lower-cased, in `e` too. */
  lemma SuffixEndsWith(s: string, t: string, e: string)
    requires |t| <= |s| && s[|s| - |t|..] == t
    requires EndsWith(Lower(t), e)
    ensures EndsWith(Lower(s), e)
  {
    LowerSuffix(s, t);
    assert Lower(s)[|s| - |e|..] == Lower(t)[|t| - |e|..];
  }

  lemma DirectExtsAreMediaExts(e: string)
    requires e in DirectMediaExts
    ensures e in MediaExts
  {
  }

  /** For a URL with no query, fragment or parameters, a direct media file is
      also a media URL: its path is the tail of the URL. */
  lemma DirectIsMedia(url: string)
    requires '?' !in url && '#' !in url && ';' !in url
    requires IsDirectMediaFile(url)
    ensures IsMediaUrl(url)
  {
    var path := Parse(url).path;
    PathIsSuffix(url);
    var e :| e in DirectMediaExts && EndsWith(Lower(path), e);
    SuffixEndsWith(url, path, e);
    DirectExtsAreMediaExts(e);
  }

  /** A URL without a network location (a relative one) is never external. */
  lemma RelativeIsNotExternal(url: string)
    requires Parse(url).netloc == ""
    ensures !IsExternalUrl(url)
  {
  }

  /** A network location that mentions `instructure.com` anywhere, as a
      sub-domain or not, is not external. */
  lemma CanvasHostIsInternal(url: string)
    requires Contains(Parse(url).netloc, "instructure.com")
    ensures !IsExternalUrl(url)
  {
  }

  /** A network location that mentions a media host anywhere makes the URL a
      media URL, whatever its path. */
  lemma MediaHostIsMedia(url: string, host: string)
    requires url != "" && host in MediaHosts && Contains(Parse(url).netloc, host)
    ensures IsMediaUrl(url)
  {
  }

  /** The empty URL is neither external, nor media, nor a media file. */
  lemma EmptyUrlIsNothing()
    ensures !IsExternalUrl("") && !IsMediaUrl("") && !IsDirectMediaFile("")
  {
  }

  // --------------------------------------------------------- file URLs

  /** The pattern `/files/\d` matches at index `i`. */
  predicate FileIdAt(s: string, i: int)
  {
    0 <= i && i + 8 <= |s| && s[i..i + 7] == "/files/" && IsDigit(s[i + 7])
  }

  /** The leftmost index at or after `from` where `/files/\d` matches. */
  function FindFileId(s: string, from: nat): (r: Option<nat>)
    ensures r.Some? ==> from <= r.value && FileIdAt(s, r.value)
                        && forall j :: from <= j < r.value ==> !FileIdAt(s, j)
    ensures r.None? ==> forall j :: from <= j ==> !FileIdAt(s, j)
    decreases |s| - from
  {
    if from + 8 > |s| then None
    else if FileIdAt(s, from) then Some(from)
    else FindFileId(s, from + 1)
  }

  /** The first group of `re.search(r'/files/(\d+)', s)`. */
  function FileId(s: string): (r: Option<string>)
  {
    match FindFileId(s, 0)
    case Some(i) => Some(DigitRun(s[i + 7..]))
    case None => None
  }

  function BaseUrl(domain: string): string
  {
    "https://" + domain
  }

  /** The path of an endpoint, before its query. */
  function EndpointPath(cid: string, id: string): string
  {
    "/courses/" + cid + "/files/" + id + "/download"
  }

  /** The query of an endpoint, which asks for the file itself. */
  const DownloadQuery := "download_frd=1"

  /** The canonical download endpoint of file `id` of course `cid`,
      `{base}/courses/{cid}/files/{id}/download?download_frd=1`. */
  function DownloadEndpoint(domain: string, cid: string, id: string): string
  {
    BaseUrl(domain) + EndpointPath(cid, id) + "?" + DownloadQuery
  }

  /** `normalize_file_url`: a URL in which `/files/` is followed by a digit
      becomes the download endpoint of the leftmost such file id, whatever
      else it holds; any other URL is returned unchanged. */
  function NormalizeFileUrl(url: string, cid: string, domain: string): (r: string)
    ensures (forall i :: !FileIdAt(url, i)) ==> r == url
    ensures forall i :: FileIdAt(url, i) && (forall j :: 0 <= j < i ==> !FileIdAt(url, j)) ==>
      r == DownloadEndpoint(domain, cid, DigitRun(url[i + 7..])) && IsDigitString(DigitRun(url[i + 7..]))
  {
    LeftmostFileId(url);
    match FileId(url)
    case Some(id) => DownloadEndpoint(domain, cid, id)
    case None => url
  }

  /** The match `FileId` takes is the leftmost one, and its digit run is not
      empty. */
  lemma LeftmostFileId(url: string)
    ensures (forall i :: !FileIdAt(url, i)) ==> FileId(url).None?
    ensures forall i :: FileIdAt(url, i) && (forall j :: 0 <= j < i ==> !FileIdAt(url, j)) ==>
      FindFileId(url, 0) == Some(i) && FileId(url) == Some(DigitRun(url[i + 7..])) &&
      IsDigitString(DigitRun(url[i + 7..]))
  {
    forall i | FileIdAt(url, i) && (forall j :: 0 <= j < i ==> !FileIdAt(url, j))
      ensures FindFileId(url, 0) == Some(i) && IsDigitString(DigitRun(url[i + 7..]))
    {
      var r := FindFileId(url, 0);
      assert r.Some? && r.value == i;
      DigitRunStartsWithDigit(url[i + 7..]);
    }
  }

  lemma DigitRunStartsWithDigit(s: string)
    requires s != [] && IsDigit(s[0])
    ensures IsDigitString(DigitRun(s))
  {
  }

  /** `/files/\d` does not match at `i` when one of its eight characters differs. */
  lemma NotFileIdAt(s: string, i: int, k: nat)
    requires 0 <= i && k < 8 && i + k < |s|
    requires k < 7 ==> s[i + k] != "/files/"[k]
    requires k == 7 ==> !IsDigit(s[i + 7])
    ensures !FileIdAt(s, i)
  {
  }

  /** The characters of an endpoint up to the end of its `/files/`. */
  lemma EndpointChar(domain: string, cid: string, id: string, k: nat)
    requires k < 8 + |domain| + 9 + |cid| + 7
    ensures var e := DownloadEndpoint(domain, cid, id); var d := |domain|; var c := |cid|;
      k < |e| &&
      e[k] == if k < 8 then "https://"[k]
              else if k < 8 + d then domain[k - 8]
              else if k < 17 + d then "/courses/"[k - 8 - d]
              else if k < 17 + d + c then cid[k - 17 - d]
              else "/files/"[k - 17 - d - c]
  {
    var e := DownloadEndpoint(domain, cid, id);
    var front := "https://" + domain + "/courses/" + cid + "/files/";
    assert e == front + id + "/download" + "?" + DownloadQuery;
    assert e[k] == front[k];
  }

  /** Before the `/files/` of an endpoint nothing matches `/files/\d`, when the
      domain has no '/' and the course id is all digits. */
  lemma NoEarlyFileId(domain: string, cid: string, id: string, j: int)
    requires '/' !in domain && AllDigits(cid)
    requires j < 8 + |domain| + 9 + |cid|
    ensures !FileIdAt(DownloadEndpoint(domain, cid, id), j)
  {
    if j < 0 {
    } else if j < 8 {
      NoFileIdInScheme(domain, cid, id, j);
    } else if j <= 8 + |domain| {
      NoFileIdInHost(domain, cid, id, j);
    } else {
      NoFileIdInCourse(domain, cid, id, j);
    }
  }

  /** No match starts in `https://`. */
  lemma NoFileIdInScheme(domain: string, cid: string, id: string, j: int)
    requires '/' !in domain && 0 <= j < 8
    ensures !FileIdAt(DownloadEndpoint(domain, cid, id), j)
  {
    var e := DownloadEndpoint(domain, cid, id);
    if j < 6 {
      EndpointChar(domain, cid, id, j);
      NotFileIdAt(e, j, 0);
    } else if j == 6 {
      EndpointChar(domain, cid, id, 7);
      NotFileIdAt(e, j, 1);
    } else {
      NoFileIdAtLastSlash(domain, cid, id);
    }
  }

  /** No match starts at the second `/` of `https://`: what follows is the
      domain, then `/courses/`, which do not spell `files/` and a digit. */
  lemma NoFileIdAtLastSlash(domain: string, cid: string, id: string)
    requires '/' !in domain
    ensures !FileIdAt(DownloadEndpoint(domain, cid, id), 7)
  {
    var e := DownloadEndpoint(domain, cid, id);
    var d := |domain|;
    if d < 5 {
      EndpointChar(domain, cid, id, 8 + d);
      NotFileIdAt(e, 7, d + 1);
    } else if d == 5 {
      EndpointChar(domain, cid, id, 14);
      NotFileIdAt(e, 7, 7);
    } else {
      EndpointChar(domain, cid, id, 13);
      NotFileIdAt(e, 7, 6);
    }
  }

  /** No match starts in the host or at the `/` after it. */
  lemma NoFileIdInHost(domain: string, cid: string, id: string, j: int)
    requires '/' !in domain && 8 <= j <= 8 + |domain|
    ensures !FileIdAt(DownloadEndpoint(domain, cid, id), j)
  {
    var e := DownloadEndpoint(domain, cid, id);
    if j < 8 + |domain| {
      EndpointChar(domain, cid, id, j);
      NotFileIdAt(e, j, 0);
    } else {
      EndpointChar(domain, cid, id, j + 1);
      NotFileIdAt(e, j, 1);
    }
  }

  /** No match starts after the host and before `/files/`. */
  lemma NoFileIdInCourse(domain: string, cid: string, id: string, j: int)
    requires AllDigits(cid)
    requires 8 + |domain| < j < 8 + |domain| + 9 + |cid|
    ensures !FileIdAt(DownloadEndpoint(domain, cid, id), j)
  {
    var e := DownloadEndpoint(domain, cid, id);
    var d := |domain|;
    if j == 16 + d {
      EndpointChar(domain, cid, id, j + 1);
      NotFileIdAt(e, j, 1);
    } else {
      EndpointChar(domain, cid, id, j);
      NotFileIdAt(e, j, 0);
    }
  }

  /** The file id of an endpoint is the id it was built from. */
  lemma EndpointFileId(domain: string, cid: string, id: string)
    requires '/' !in domain && AllDigits(cid) && IsDigitString(id)
    ensures FileId(DownloadEndpoint(domain, cid, id)) == Some(id)
  {
    var e := DownloadEndpoint(domain, cid, id);
    var front := "https://" + domain + "/courses/" + cid;
    var files := "/files/";
    var tail := "/download" + "?" + DownloadQuery;
    assert e == front + files + id + tail;
    var p := |front|;
    assert e[p..p + 7] == files;
    assert e[p + 7] == id[0];
    assert FileIdAt(e, p);
    forall j | 0 <= j < p ensures !FileIdAt(e, j) {
      NoEarlyFileId(domain, cid, id, j);
    }
    assert e[p + 7..] == id + tail;
    assert !IsDigit(tail[0]);
    FileIdOfFirstMatch(e, p, id, tail);
  }

  /** The file id of the leftmost match is the digit run after it. */
  lemma FileIdOfFirstMatch(s: string, p: nat, id: string, tail: string)
    requires FileIdAt(s, p) && forall j :: 0 <= j < p ==> !FileIdAt(s, j)
    requires p + 7 <= |s| && s[p + 7..] == id + tail
    requires AllDigits(id) && (tail == [] || !IsDigit(tail[0]))
    ensures FileId(s) == Some(id)
  {
    DigitRunOf(id, tail);
  }

  /** Normalising a file URL twice gives the same result as normalising it
      once, for a host name and an all-digit course id. */
  lemma NormalizeIdempotent(url: string, cid: string, domain: string)
    requires '/' !in domain && AllDigits(cid)
    ensures NormalizeFileUrl(NormalizeFileUrl(url, cid, domain), cid, domain) == NormalizeFileUrl(url, cid, domain)
  {
    match FileId(url)
    case Some(id) =>
      var i := FindFileId(url, 0).value;
      assert IsDigitString(id) by { assert IsDigit(url[i + 7]); }
      EndpointFileId(domain, cid, id);
    case None =>
  }

  lemma SchemeOfHttps(tail: string)
    ensures SplitScheme("https://" + tail) == ("https", "//" + tail)
  {
    var u := "https://" + tail;
    assert u[0] == 'h' && u[1] == 't' && u[2] == 't' && u[3] == 'p' && u[4] == 's' && u[5] == ':';
    assert Find(u, {':'}) == 5;
    assert u[..5] == "https";
    assert forall k :: 0 <= k < 5 ==> IsSchemeChar(u[k]);
    assert IsAsciiLetter(u[0]);
    assert Lower("https") == "https";
    assert u[6..] == "//" + tail;
  }

  lemma NetlocOfHost(domain: string, rest: string)
    requires '/' !in domain && '?' !in domain && '#' !in domain
    requires rest != [] && rest[0] == '/'
    ensures SplitNetloc("//" + (domain + rest)) == (domain, rest)
  {
    var t := "//" + (domain + rest);
    var dd := 2 + |domain|;
    assert t[..2] == "//";
    assert t[dd] == '/';
    assert forall k :: 2 <= k < dd ==> t[k] == domain[k - 2];
    assert FindFrom(t, {'/', '?', '#'}, 2) == dd;
    assert t[2..dd] == domain;
    assert t[dd..] == rest;
  }

  /** The network location of an endpoint is the configured domain. */
  lemma EndpointNetloc(domain: string, cid: string, id: string)
    requires '/' !in domain && '?' !in domain && '#' !in domain
    ensures Parse(DownloadEndpoint(domain, cid, id)).netloc == domain
  {
    var rest := EndpointPath(cid, id) + "?" + DownloadQuery;
    EndpointShape(domain, cid, id);
    SchemeOfHttps(domain + rest);
    NetlocOfHost(domain, rest);
  }

  /** An endpoint path holds no character that ends or escapes a path. */
  lemma EndpointPathPlain(cid: string, id: string)
    requires AllDigits(cid) && AllDigits(id)
    ensures forall k :: 0 <= k < |EndpointPath(cid, id)| ==> EndpointPath(cid, id)[k] !in {'?', '#', ';', '%'}
  {
    var p := EndpointPath(cid, id);
    var c := |cid|;
    var f := |id|;
    forall k | 0 <= k < |p| ensures p[k] !in {'?', '#', ';', '%'} {
      if k < 9 {
        assert p[k] == "/courses/"[k];
      } else if k < 9 + c {
        assert p[k] == cid[k - 9];
      } else if k < 16 + c {
        assert p[k] == "/files/"[k - 9 - c];
      } else if k < 16 + c + f {
        assert p[k] == id[k - 16 - c];
      } else {
        assert p[k] == "/download"[k - 16 - c - f];
      }
    }
  }

  /** An endpoint is `https://`, then the host, then the path and the query. */
  lemma EndpointShape(domain: string, cid: string, id: string)
    ensures DownloadEndpoint(domain, cid, id) ==
      "https://" + (domain + (EndpointPath(cid, id) + "?" + DownloadQuery))
    ensures EndpointPath(cid, id)[0] == '/'
  {
  }

  /** What follows the host in an endpoint. */
  lemma EndpointAfterNetloc(domain: string, cid: string, id: string)
    requires '/' !in domain && '?' !in domain && '#' !in domain
    ensures AfterNetloc(DownloadEndpoint(domain, cid, id)) == EndpointPath(cid, id) + "?" + DownloadQuery
  {
    var rest := EndpointPath(cid, id) + "?" + DownloadQuery;
    EndpointShape(domain, cid, id);
    SchemeOfHttps(domain + rest);
    NetlocOfHost(domain, rest);
  }

  /** The path `urlparse` finds in an endpoint is its path before the query. */
  lemma EndpointParsedPath(domain: string, cid: string, id: string)
    requires '/' !in domain && '?' !in domain && '#' !in domain
    requires AllDigits(cid) && AllDigits(id)
    ensures Parse(DownloadEndpoint(domain, cid, id)).path == EndpointPath(cid, id)
  {
    EndpointAfterNetloc(domain, cid, id);
    EndpointPathPlain(cid, id);
    assert '#' !in DownloadQuery;
    ParsedPathBeforeQuery(DownloadEndpoint(domain, cid, id), EndpointPath(cid, id), DownloadQuery);
  }

  /** The canonical endpoint is internal when the domain is a Canvas host. */
  lemma EndpointIsInternal(domain: string, cid: string, id: string)
    requires '/' !in domain && '?' !in domain && '#' !in domain
    requires Contains(domain, "instructure.com")
    ensures !IsExternalUrl(DownloadEndpoint(domain, cid, id))
  {
    EndpointNetloc(domain, cid, id);
  }
}
