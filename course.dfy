/** `process_course`: the course folder, the crawl, the downloads of the files
    and of the direct media, and the list of external links. */
module Course {
  import opened Strings
  import opened Classifier
  import opened Downloader
  import opened Crawler
  import opened Manifest

  /** What a course run meets outside the program: the answer the server
      gives for each URL, and the clock reading at the k-th download. */
  datatype Env = Env(net: string -> Fetch, clock: nat -> nat)

  /** The course folders under the download directory, by folder name. */
  type Library = map<string, Folder>

  // ------------------------------------------------------------ downloads

  /** One call of `download_resource`: what the server answered and the
      clock reading at the time. */
  datatype Job = Job(fetch: Fetch, now: nat)

  /** The name a call saves under, by the rules of `download_resource`. */
  function Named(j: Job): string
  {
    NameFor(j.fetch, j.now)
  }

  /** The calls for `urls` in turn, the k-th at clock reading `clock(start + k)`. */
  function Jobs(env: Env, urls: seq<string>, start: nat): (js: seq<Job>)
    ensures |js| == |urls|
  {
    seq(|urls|, k requires 0 <= k < |urls| => Job(env.net(urls[k]), env.clock(start + k)))
  }

  lemma JobsAt(env: Env, urls: seq<string>, start: nat, k: nat)
    requires k < |urls|
    ensures Jobs(env, urls, start)[k] == Job(env.net(urls[k]), env.clock(start + k))
  {
  }

  lemma JobsSnoc(env: Env, urls: seq<string>, u: string, start: nat)
    ensures Jobs(env, urls + [u], start) == Jobs(env, urls, start) + [Job(env.net(u), env.clock(start + |urls|))]
  {
    assert forall k :: 0 <= k < |urls| ==> (urls + [u])[k] == urls[k];
  }

  /** The folder after each call in turn, call `j` saving under `name(j)`. */
  function Stores(jobs: seq<Job>, name: Job -> string, folder: Folder): Folder
    decreases |jobs|
  {
    if jobs == [] then folder
    else
      var n := |jobs| - 1;
      Store(jobs[n].fetch, name(jobs[n]), Stores(jobs[..n], name, folder)).1
  }

  lemma StoresSnoc(jobs: seq<Job>, j: Job, name: Job -> string, folder: Folder)
    ensures Stores(jobs + [j], name, folder) == Store(j.fetch, name(j), Stores(jobs, name, folder)).1
  {
    assert (jobs + [j])[..|jobs|] == jobs;
  }

  /** `download_resource` is the store of its call under the name it resolves. */
  lemma DownloadIsStore(fetch: Fetch, folder: Folder, now: nat)
    ensures Download(fetch, folder, now).1 == Store(fetch, Named(Job(fetch, now)), folder).1
  {
  }

  /** A response the program writes a file for: one that arrived with a
      status below the error classes. */
  predicate Served(f: Fetch)
  {
    f.Received? && !IsErrorStatus(f.response.status)
  }

  /** Every file that was there stays, with its contents. */
  lemma {:induction false} StoresKeep(jobs: seq<Job>, name: Job -> string, folder: Folder)
    ensures var after := Stores(jobs, name, folder);
      forall n :: n in folder ==> n in after && after[n] == folder[n]
    decreases |jobs|
  {
    if jobs != [] {
      StoresKeep(jobs[..|jobs| - 1], name, folder);
    }
  }

  /** Every new file is the name of a served call. */
  lemma {:induction false} StoresNew(jobs: seq<Job>, name: Job -> string, folder: Folder)
    ensures var after := Stores(jobs, name, folder);
      forall n :: n in after && n !in folder ==>
        exists k :: 0 <= k < |jobs| && Served(jobs[k].fetch) && name(jobs[k]) == n
    decreases |jobs|
  {
    if jobs != [] {
      var n := |jobs| - 1;
      var before := Stores(jobs[..n], name, folder);
      StoresNew(jobs[..n], name, folder);
      forall f | f in Stores(jobs, name, folder) && f !in folder
        ensures exists k :: 0 <= k < |jobs| && Served(jobs[k].fetch) && name(jobs[k]) == f
      {
        if f in before {
          var k :| 0 <= k < |jobs[..n]| && Served(jobs[..n][k].fetch) && name(jobs[..n][k]) == f;
          assert jobs[..n][k] == jobs[k];
        } else {
          assert Served(jobs[n].fetch) && name(jobs[n]) == f;
        }
      }
    }
  }

  /** After the calls, the name of every served call exists. */
  lemma {:induction false} StoresCover(jobs: seq<Job>, name: Job -> string, folder: Folder, k: nat)
    requires k < |jobs| && Served(jobs[k].fetch)
    ensures Exists(Stores(jobs, name, folder), name(jobs[k]))
    decreases |jobs|
  {
    var n := |jobs| - 1;
    if k < n {
      StoresCover(jobs[..n], name, folder, k);
      assert jobs[..n][k] == jobs[k];
    }
  }

  /** Once the name of every served call exists, the calls change nothing. */
  lemma {:induction false} StoresFixed(jobs: seq<Job>, name: Job -> string, folder: Folder)
    requires forall k :: 0 <= k < |jobs| && Served(jobs[k].fetch) ==> Exists(folder, name(jobs[k]))
    ensures Stores(jobs, name, folder) == folder
    decreases |jobs|
  {
    if jobs != [] {
      var n := |jobs| - 1;
      forall k | 0 <= k < |jobs[..n]| && Served(jobs[..n][k].fetch)
        ensures Exists(folder, name(jobs[..n][k]))
      {
        assert jobs[..n][k] == jobs[k];
      }
      StoresFixed(jobs[..n], name, folder);
    }
  }

  /** Making the same calls again changes nothing: a rerun with the same
      answers and clock readings downloads nothing. */
  lemma StoresIdempotent(jobs: seq<Job>, name: Job -> string, folder: Folder)
    ensures Stores(jobs, name, Stores(jobs, name, folder)) == Stores(jobs, name, folder)
  {
    var once := Stores(jobs, name, folder);
    forall k | 0 <= k < |jobs| && Served(jobs[k].fetch)
      ensures Exists(once, name(jobs[k]))
    {
      StoresCover(jobs, name, folder, k);
    }
    StoresFixed(jobs, name, once);
  }

  /** One more call, for `u`, at the next clock reading, is one more download. */
  lemma JobsStep(env: Env, urls: seq<string>, u: string, start: nat, now: nat, folder: Folder, before: Folder)
    requires now == env.clock(start + |urls|)
    requires before == Stores(Jobs(env, urls, start), Named, folder)
    ensures Stores(Jobs(env, urls + [u], start), Named, folder) == Download(env.net(u), before, now).1
  {
    JobsSnoc(env, urls, u, start);
    StoresSnoc(Jobs(env, urls, start), Job(env.net(u), now), Named, folder);
    DownloadIsStore(env.net(u), before, now);
  }

  /** `download_resource(u, ...)` as the call after those for `urls`: the
      folder moves on by one call. */
  method DownloadNext(env: Env, ghost urls: seq<string>, u: string, start: nat, now: nat,
                      folder: Folder, before: Folder)
    returns (after: Folder)
    requires now == env.clock(start + |urls|)
    requires before == Stores(Jobs(env, urls, start), Named, folder)
    ensures after == Stores(Jobs(env, urls + [u], start), Named, folder)
  {
    var outcome;
    outcome, after := DownloadResource(env.net(u), before, now);
    JobsStep(env, urls, u, start, now, folder, before);
  }

  /** `for url in files: download_resource(url, course_dir, session)`. */
  method DownloadAll(env: Env, urls: seq<string>, start: nat, folder: Folder) returns (after: Folder)
    ensures after == Stores(Jobs(env, urls, start), Named, folder)
  {
    after := folder;
    var i := 0;
    while i < |urls|
      invariant 0 <= i <= |urls|
      invariant after == Stores(Jobs(env, urls[..i], start), Named, folder)
    {
      assert urls[..i + 1] == urls[..i] + [urls[i]];
      after := DownloadNext(env, urls[..i], urls[i], start, env.clock(start + i), folder, after);
      i := i + 1;
    }
    assert urls[..i] == urls;
  }

  // ------------------------------------------------------------ media

  /** The elements `x` of `xs` with `p(x) == keep`, in order. */
  function Filter(xs: seq<string>, p: string -> bool, keep: bool): seq<string>
    decreases |xs|
  {
    if xs == [] then []
    else
      var n := |xs| - 1;
      Filter(xs[..n], p, keep) + if p(xs[n]) == keep then [xs[n]] else []
  }

  /** Exactly the elements with `p(x) == keep` are kept. */
  lemma {:induction false} FilterMembers(xs: seq<string>, p: string -> bool, keep: bool)
    ensures forall u :: u in Filter(xs, p, keep) <==> u in xs && p(u) == keep
    decreases |xs|
  {
    if xs != [] {
      var n := |xs| - 1;
      FilterMembers(xs[..n], p, keep);
      assert xs == xs[..n] + [xs[n]];
    }
  }

  /** A test splits a sequence in two: what it holds of and what it does not. */
  lemma {:induction false} FilterPartition(xs: seq<string>, p: string -> bool)
    ensures |Filter(xs, p, true)| + |Filter(xs, p, false)| == |xs|
    decreases |xs|
  {
    if xs != [] {
      FilterPartition(xs[..|xs| - 1], p);
    }
  }

  lemma FilterSnoc(xs: seq<string>, p: string -> bool, keep: bool, i: nat)
    requires i < |xs|
    ensures Filter(xs[..i + 1], p, keep) == Filter(xs[..i], p, keep) + if p(xs[i]) == keep then [xs[i]] else []
  {
    assert xs[..i + 1][..i] == xs[..i];
  }

  lemma FilterKeeps(xs: seq<string>, p: string -> bool, keep: bool, i: nat)
    requires i < |xs| && p(xs[i]) == keep
    ensures Filter(xs[..i + 1], p, keep) == Filter(xs[..i], p, keep) + [xs[i]]
  {
    FilterSnoc(xs, p, keep, i);
  }

  lemma FilterSkips(xs: seq<string>, p: string -> bool, keep: bool, i: nat)
    requires i < |xs| && p(xs[i]) != keep
    ensures Filter(xs[..i + 1], p, keep) == Filter(xs[..i], p, keep)
  {
    FilterSnoc(xs, p, keep, i);
    assert Filter(xs[..i], p, keep) + [] == Filter(xs[..i], p, keep);
  }

  /** Every media URL goes exactly one way: downloaded when it names a media
      file, listed as a link otherwise. */
  lemma MediaSplit(media: seq<string>)
    ensures forall u :: u in Filter(media, IsDirectMediaFile, true) <==> u in media && IsDirectMediaFile(u)
    ensures forall u :: u in Filter(media, IsDirectMediaFile, false) <==> u in media && !IsDirectMediaFile(u)
    ensures |Filter(media, IsDirectMediaFile, true)| + |Filter(media, IsDirectMediaFile, false)| == |media|
  {
    FilterMembers(media, IsDirectMediaFile, true);
    FilterMembers(media, IsDirectMediaFile, false);
    FilterPartition(media, IsDirectMediaFile);
  }

  /** The media loop of `process_course`: a URL `isDirect` holds of (the
      program passes `is_direct_media_file`) is downloaded at the next clock
      reading, anything else is appended to the external links. */
  method ProcessMedia(env: Env, media: seq<string>, isDirect: string -> bool, start: nat,
                      folder: Folder, externals: seq<string>)
    returns (after: Folder, externals': seq<string>)
    ensures after == Stores(Jobs(env, Filter(media, isDirect, true), start), Named, folder)
    ensures externals' == externals + Filter(media, isDirect, false)
  {
    after, externals' := folder, externals;
    var count := 0;
    ghost var direct: seq<string> := [];
    var i := 0;
    while i < |media|
      invariant 0 <= i <= |media|
      invariant direct == Filter(media[..i], isDirect, true) && count == |direct|
      invariant after == Stores(Jobs(env, direct, start), Named, folder)
      invariant externals' == externals + Filter(media[..i], isDirect, false)
    {
      var url := media[i];
      if isDirect(url) {
        FilterSkips(media, isDirect, false, i);
        FilterKeeps(media, isDirect, true, i);
        after := DownloadNext(env, direct, url, start, env.clock(start + count), folder, after);
        direct := direct + [url];
        count := count + 1;
      } else {
        FilterKeeps(media, isDirect, false, i);
        FilterSkips(media, isDirect, true, i);
        externals' := externals' + [url];
      }
      i := i + 1;
    }
    assert media[..i] == media;
  }

  // ------------------------------------------------------------ one course

  /** `list(s)`: the members of a set in some order, each once. */
  method ListOf(s: set<string>) returns (l: seq<string>)
    ensures Distinct(l) && forall u :: u in l <==> u in s
  {
    l := [];
    var rest := s;
    while rest != {}
      invariant rest !! (set u | u in l) && rest + (set u | u in l) == s
      invariant Distinct(l)
      decreases |rest|
    {
      var u :| u in rest;
      l := l + [u];
      rest := rest - {u};
    }
  }

  /** The folder of a course: `os.path.join(DOWNLOAD_DIR, sanitize_filename(name))`,
      created empty when missing. */
  function CourseFolder(lib: Library, name: string): Folder
  {
    var safe := SanitizeFilename(name);
    if safe in lib then lib[safe] else map[]
  }

  /** What `process_course` leaves in the course folder once the crawl gave
      the three lists, and the links it writes: the files are downloaded,
      then the direct media, then the sorted list of the external links and
      the other media replaces `external_links.txt`. */
  function RunCourse(env: Env, files: seq<string>, externals: seq<string>, media: seq<string>, folder: Folder)
    : (Folder, seq<string>)
  {
    var first := Stores(Jobs(env, files, 0), Named, folder);
    var downloaded := Stores(Jobs(env, Filter(media, IsDirectMediaFile, true), |files|), Named, first);
    var links := SortedUnique(externals + Filter(media, IsDirectMediaFile, false));
    (downloaded[ManifestFile := Encode(ManifestText(links))], links)
  }

  /** The list holds each external link and each media URL that is not a
      media file exactly once, in order. */
  lemma RunCourseLinks(env: Env, files: seq<string>, externals: seq<string>, media: seq<string>, folder: Folder)
    ensures var links := RunCourse(env, files, externals, media, folder).1;
      StrictlySorted(links) &&
      forall u :: u in links <==> u in externals || (u in media && !IsDirectMediaFile(u))
  {
    SortedUniqueSpec(externals + Filter(media, IsDirectMediaFile, false));
    MediaSplit(media);
  }

  /** The course folder keeps every file it had except the list of links,
      which is replaced; it holds the list. */
  lemma RunCourseKeeps(env: Env, files: seq<string>, externals: seq<string>, media: seq<string>, folder: Folder)
    ensures var r := RunCourse(env, files, externals, media, folder);
      ManifestFile in r.0 && r.0[ManifestFile] == Encode(ManifestText(r.1)) &&
      forall n :: n in folder && n != ManifestFile ==> n in r.0 && r.0[n] == folder[n]
  {
    var first := Stores(Jobs(env, files, 0), Named, folder);
    StoresKeep(Jobs(env, files, 0), Named, folder);
    StoresKeep(Jobs(env, Filter(media, IsDirectMediaFile, true), |files|), Named, first);
  }

  /** File `n` is what URL `u` gives at clock reading `t`. */
  predicate Fetched(env: Env, u: string, t: nat, n: string)
  {
    Served(env.net(u)) && n == NameFor(env.net(u), t)
  }

  /** A new file of a run of calls for `urls` is what one of them gave. */
  lemma JobsNew(env: Env, urls: seq<string>, start: nat, folder: Folder)
    ensures var after := Stores(Jobs(env, urls, start), Named, folder);
      forall n :: n in after && n !in folder ==> exists u, t :: u in urls && Fetched(env, u, t, n)
  {
    var jobs := Jobs(env, urls, start);
    StoresNew(jobs, Named, folder);
    forall n | n in Stores(jobs, Named, folder) && n !in folder
      ensures exists u, t :: u in urls && Fetched(env, u, t, n)
    {
      var k :| 0 <= k < |jobs| && Served(jobs[k].fetch) && Named(jobs[k]) == n;
      JobsAt(env, urls, start, k);
      assert Fetched(env, urls[k], env.clock(start + k), n);
    }
  }

  /** Every other new file is what one of the files or direct media gave. */
  lemma RunCourseNew(env: Env, files: seq<string>, externals: seq<string>, media: seq<string>, folder: Folder)
    ensures var after := RunCourse(env, files, externals, media, folder).0;
      forall n :: n in after && n !in folder && n != ManifestFile ==>
        exists u, t :: (u in files || (u in media && IsDirectMediaFile(u))) && Fetched(env, u, t, n)
  {
    var direct := Filter(media, IsDirectMediaFile, true);
    var first := Stores(Jobs(env, files, 0), Named, folder);
    JobsNew(env, files, 0, folder);
    JobsNew(env, direct, |files|, first);
    MediaSplit(media);
  }

  /** No response for `urls` that arrives is named after the clock. */
  predicate ClockFree(env: Env, urls: seq<string>)
  {
    forall u :: u in urls && env.net(u).Received? ==> !UsesTimestamp(env.net(u).response)
  }

  /** Once a run of downloads is done, running any of its URLs again, under
      any clock, on a folder that still has every name of the first run,
      changes nothing: each name is found present. */
  lemma RerunFixed(env: Env, env': Env, urls: seq<string>, urls': seq<string>, start: nat, start': nat,
                   folder: Folder, current: Folder)
    requires env'.net == env.net && ClockFree(env, urls)
    requires forall u :: u in urls' ==> u in urls
    requires forall n :: n in Stores(Jobs(env, urls, start), Named, folder) ==> n in current
    ensures Stores(Jobs(env', urls', start'), Named, current) == current
  {
    var jobs := Jobs(env, urls, start);
    var jobs' := Jobs(env', urls', start');
    forall k | 0 <= k < |jobs'| && Served(jobs'[k].fetch) ensures Exists(current, Named(jobs'[k])) {
      JobsAt(env', urls', start', k);
      var m :| 0 <= m < |urls| && urls[m] == urls'[k];
      JobsAt(env, urls, start, m);
      StoresCover(jobs, Named, folder, m);
      NameIgnoresClock(env.net(urls[m]).response, env.clock(start + m), env'.clock(start' + k));
    }
    StoresFixed(jobs', Named, current);
  }

  /** Both download loops of a second run leave a folder alone that still
      has every name of the first run. */
  lemma RerunDownloads(env: Env, env': Env, files: seq<string>, media: seq<string>,
                       files': seq<string>, media': seq<string>, folder: Folder, current: Folder)
    requires env'.net == env.net
    requires ClockFree(env, files) && ClockFree(env, Filter(media, IsDirectMediaFile, true))
    requires forall u :: u in files' ==> u in files
    requires forall u :: u in media' ==> u in media
    requires var first := Stores(Jobs(env, files, 0), Named, folder);
      forall n :: n in Stores(Jobs(env, Filter(media, IsDirectMediaFile, true), |files|), Named, first) ==> n in current
    ensures var first' := Stores(Jobs(env', files', 0), Named, current);
      Stores(Jobs(env', Filter(media', IsDirectMediaFile, true), |files'|), Named, first') == current
  {
    var direct := Filter(media, IsDirectMediaFile, true);
    var first := Stores(Jobs(env, files, 0), Named, folder);
    StoresKeep(Jobs(env, direct, |files|), Named, first);
    MediaSplit(media);
    MediaSplit(media');
    RerunFixed(env, env', files, files', 0, 0, folder, current);
    RerunFixed(env, env', direct, Filter(media', IsDirectMediaFile, true), |files|, |files'|, first, current);
  }

  /** The same links and media, in any order, give the same list of links. */
  lemma RerunLinks(externals: seq<string>, media: seq<string>, externals': seq<string>, media': seq<string>)
    requires forall u :: u in externals' <==> u in externals
    requires forall u :: u in media' <==> u in media
    ensures SortedUnique(externals' + Filter(media', IsDirectMediaFile, false)) ==
      SortedUnique(externals + Filter(media, IsDirectMediaFile, false))
  {
    MediaSplit(media);
    MediaSplit(media');
    SortedUniqueOfSameLinks(externals' + Filter(media', IsDirectMediaFile, false),
                            externals + Filter(media, IsDirectMediaFile, false));
  }

  /** Writing a file's own content again changes nothing. */
  lemma WriteAgain(folder: Folder, name: string, content: seq<Byte>)
    requires name in folder && folder[name] == content
    ensures folder[name := content] == folder
  {
  }

  /** A second run of a course, under any clock and with the crawl's lists in
      any order, leaves the folder as the first run left it, provided no file
      or direct media response is named after the clock. */
  lemma RunCourseRerun(env: Env, env': Env, files: seq<string>, externals: seq<string>, media: seq<string>,
                       files': seq<string>, externals': seq<string>, media': seq<string>, folder: Folder)
    requires env'.net == env.net
    requires ClockFree(env, files) && ClockFree(env, Filter(media, IsDirectMediaFile, true))
    requires forall u :: u in files' <==> u in files
    requires forall u :: u in externals' <==> u in externals
    requires forall u :: u in media' <==> u in media
    ensures var r := RunCourse(env, files, externals, media, folder);
      RunCourse(env', files', externals', media', r.0) == r
  {
    var first := Stores(Jobs(env, files, 0), Named, folder);
    var downloaded := Stores(Jobs(env, Filter(media, IsDirectMediaFile, true), |files|), Named, first);
    var links := SortedUnique(externals + Filter(media, IsDirectMediaFile, false));
    var text := Encode(ManifestText(links));
    var after := downloaded[ManifestFile := text];
    assert RunCourse(env, files, externals, media, folder) == (after, links);
    RerunDownloads(env, env', files, media, files', media', folder, after);
    RerunLinks(externals, media, externals', media');
    WriteAgain(after, ManifestFile, text);
  }

  /** The course folder exists and holds a list of links. */
  predicate HasList(lib: Library, folder: string)
  {
    folder in lib && ManifestFile in lib[folder]
  }

  /** Every folder of `lib` is in `lib'`, and every file of it but the list of
      links is too, with the same contents. */
  predicate KeepsFiles(lib: Library, lib': Library)
  {
    forall k :: k in lib ==>
      k in lib' && forall n :: n in lib[k] && n != ManifestFile ==> n in lib'[k] && lib'[k][n] == lib[k][n]
  }

  lemma KeepsFilesTrans(a: Library, b: Library, c: Library)
    requires KeepsFiles(a, b) && KeepsFiles(b, c)
    ensures KeepsFiles(a, c)
  {
  }

  /** A course run seen from the download directory: every file of every
      folder stays, except the list of links of the course's own folder; the
      course folder exists and holds its list; no other folder changes. */
  lemma LibraryStep(env: Env, files: seq<string>, externals: seq<string>, media: seq<string>,
                    lib: Library, name: string)
    ensures var safe := SanitizeFilename(name);
      var lib' := lib[safe := RunCourse(env, files, externals, media, CourseFolder(lib, name)).0];
      HasList(lib', safe) && KeepsFiles(lib, lib') &&
      forall k :: k in lib' && k != safe ==> k in lib && lib'[k] == lib[k]
  {
    RunCourseKeeps(env, files, externals, media, CourseFolder(lib, name));
  }

  /** `process_course`: the crawl's sets become lists in some order; the
      course folder then holds what `RunCourse` says, and no other folder
      changes. `visited` is the set of pages the crawl navigated. */
  method ProcessCourse(site: Site, env: Env, cid: string, name: string, domain: string, lib: Library)
    returns (lib': Library, links: seq<string>,
             ghost visited: set<string>, ghost files: seq<string>, ghost externals: seq<string>, ghost media: seq<string>)
    ensures SeedsClosed(site, cid, domain, visited) && forall s :: SeedsClosed(site, cid, domain, s) ==> visited <= s
    ensures var h := HarvestOf(site, visited, cid, domain);
      Distinct(files) && Distinct(externals) && Distinct(media) &&
      (forall u :: u in files <==> u in h.files) &&
      (forall u :: u in externals <==> u in h.externals) &&
      (forall u :: u in media <==> u in h.media)
    ensures var r := RunCourse(env, files, externals, media, CourseFolder(lib, name));
      lib' == lib[SanitizeFilename(name) := r.0] && links == r.1
  {
    var safe := SanitizeFilename(name);
    var folder := if safe in lib then lib[safe] else map[];
    var fileSet, externalSet, mediaSet;
    ghost var trace;
    fileSet, externalSet, mediaSet, visited, trace := Crawl(site, cid, domain);
    var fileList := ListOf(fileSet);
    var externalList := ListOf(externalSet);
    var mediaList := ListOf(mediaSet);
    files, externals, media := fileList, externalList, mediaList;
    var after := DownloadAll(env, fileList, 0, folder);
    var allExternals;
    after, allExternals := ProcessMedia(env, mediaList, IsDirectMediaFile, |fileList|, after, externalList);
    links := SortedUnique(allExternals);
    after := WriteManifest(after, links);
    lib' := lib[safe := after];
  }
}
