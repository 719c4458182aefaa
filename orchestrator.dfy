/** The glue around the crawl: the course list read from the dashboard's
    anchors (`main`), and the work done for one course (`process_course`):
    downloading the files, splitting the media into downloads and links, and
    writing the sorted, de-duplicated list of external links. */
module Orchestrator {
  import opened Strings
  import opened Urls
  import opened Classifier
  import opened Downloader
  import opened Crawler
  import opened Manifest
  import opened Course

  // ------------------------------------------------------------ course list

  /** An anchor of the course list page: its `href` and its trimmed text. */
  datatype Anchor = Anchor(href: string, name: string)

  predicate IsSlash(c: char)
  {
    c == '/'
  }

  /** `urlparse(href).path.strip('/').split('/')`. */
  function PathSegments(href: string): (parts: seq<string>)
    ensures |parts| >= 1
  {
    SplitOn(Trim(Parse(href).path, IsSlash), '/')
  }

  /** The course a sequence of path segments names: the segment after the
      first `courses` segment, when there is one and it is all digits. */
  function CourseIdIn(parts: seq<string>): (r: Option<string>)
    ensures r.Some? ==> IsDigitString(r.value)
    ensures r.Some? <==>
      exists i :: 0 <= i < |parts| - 1 && parts[i] == "courses" &&
        (forall j :: 0 <= j < i ==> parts[j] != "courses") && IsDigitString(parts[i + 1])
    ensures r.Some? ==>
      exists i :: 0 <= i < |parts| - 1 && parts[i] == "courses" &&
        (forall j :: 0 <= j < i ==> parts[j] != "courses") && r.value == parts[i + 1]
  {
    var idx := IndexOf(parts, "courses");
    if idx + 1 < |parts| && IsDigitString(parts[idx + 1]) then Some(parts[idx + 1]) else None
  }

  /** The course an anchor's address names. */
  function CourseIdOf(href: string): (r: Option<string>)
  {
    CourseIdIn(PathSegments(href))
  }

  /** A course id is read from the path, where it follows `courses/`. */
  lemma CourseIdInPath(href: string)
    requires CourseIdOf(href).Some?
    ensures Contains(Parse(href).path, "courses" + "/" + CourseIdOf(href).value)
  {
    var path := Parse(href).path;
    var t := Trim(path, IsSlash);
    var parts := SplitOn(t, '/');
    var idx := IndexOf(parts, "courses");
    JoinSplit(t, '/');
    JoinContainsNeighbours(parts, '/', idx);
    ContainsInSlice(path, TrimLo(path, IsSlash), TrimHi(path, IsSlash), parts[idx] + ['/'] + parts[idx + 1]);
  }

  /** The pieces of a course page address. */
  lemma CourseUrlShape(cid: string, domain: string)
    ensures CourseUrl(cid, domain) == "https://" + (domain + ("/" + ("courses" + "/" + cid)))
  {
  }

  /** What follows the host in a course page address. */
  lemma CourseUrlAfterNetloc(cid: string, domain: string)
    requires '/' !in domain && '?' !in domain && '#' !in domain
    ensures AfterNetloc(CourseUrl(cid, domain)) == "/" + ("courses" + "/" + cid)
  {
    var rest := "/" + ("courses" + "/" + cid);
    CourseUrlShape(cid, domain);
    SchemeOfHttps(domain + rest);
    NetlocOfHost(domain, rest);
  }

  /** A course path holds no character that ends a path. */
  lemma CoursePathPlain(cid: string)
    requires IsDigitString(cid)
    ensures var rest := "/" + ("courses" + "/" + cid);
      '?' !in rest && '#' !in rest && ';' !in rest
  {
    assert '?' !in cid && '#' !in cid && ';' !in cid;
  }

  /** The path of a course's home page is `/courses/{cid}`. */
  lemma CourseUrlPath(cid: string, domain: string)
    requires '/' !in domain && '?' !in domain && '#' !in domain && IsDigitString(cid)
    ensures Parse(CourseUrl(cid, domain)).path == "/" + ("courses" + "/" + cid)
  {
    CourseUrlAfterNetloc(cid, domain);
    CoursePathPlain(cid);
    ParsedPathPlain(CourseUrl(cid, domain), "/" + ("courses" + "/" + cid));
  }

  /** Stripping the slashes of `/courses/{cid}` leaves `courses/{cid}`. */
  lemma TrimCoursePath(cid: string)
    requires IsDigitString(cid)
    ensures Trim("/" + ("courses" + "/" + cid), IsSlash) == "courses" + "/" + cid
  {
    var inner := "courses" + "/" + cid;
    var path := "/" + inner;
    assert !IsSlash(path[1]) && !IsSlash(path[|path| - 1]);
    assert TrimLo(path, IsSlash) == 1;
    assert TrimHi(path, IsSlash) == |path|;
    assert path[1..] == inner;
  }

  /** `courses/{cid}` splits into its two segments. */
  lemma SplitCoursePath(cid: string)
    requires IsDigitString(cid)
    ensures SplitOn("courses" + "/" + cid, '/') == ["courses", cid]
  {
    assert '/' !in cid;
    assert '/' !in "courses";
    SplitOnNone(cid, '/');
    SplitOnCut("courses", '/', cid);
  }

  /** A path `/courses/{cid}` has the segments `courses` and `cid`. */
  lemma CoursePathSegments(href: string, cid: string)
    requires Parse(href).path == "/" + ("courses" + "/" + cid) && IsDigitString(cid)
    ensures PathSegments(href) == ["courses", cid]
  {
    TrimCoursePath(cid);
    SplitCoursePath(cid);
  }

  /** The segments `courses` and `cid` name course `cid`. */
  lemma CourseIdOfSegments(cid: string)
    requires IsDigitString(cid)
    ensures CourseIdIn(["courses", cid]) == Some(cid)
  {
    assert IndexOf(["courses", cid], "courses") == 0;
  }

  /** The anchor of a course's home page names that course. */
  lemma CourseUrlId(cid: string, domain: string)
    requires '/' !in domain && '?' !in domain && '#' !in domain && IsDigitString(cid)
    ensures CourseIdOf(CourseUrl(cid, domain)) == Some(cid)
  {
    CourseUrlPath(cid, domain);
    CoursePathSegments(CourseUrl(cid, domain), cid);
    CourseIdOfSegments(cid);
  }

  /** What the loop of `main` reads off one anchor: the course its address
      names, if any, and its text. */
  datatype Entry = Entry(cid: Option<string>, name: string)

  function EntryOf(a: Anchor): Entry
  {
    Entry(CourseIdOf(a.href), a.name)
  }

  function Entries(anchors: seq<Anchor>): (es: seq<Entry>)
    ensures |es| == |anchors|
  {
    seq(|anchors|, k requires 0 <= k < |anchors| => EntryOf(anchors[k]))
  }

  lemma EntriesAt(anchors: seq<Anchor>, k: nat)
    requires k < |anchors|
    ensures Entries(anchors)[k] == EntryOf(anchors[k])
  {
  }

  /** Course list entries whose text mentions this are passed over. */
  const AllCourses := "All Courses"

  /** The course an entry adds to the list, if any: one that names a course
      and whose text does not mention "All Courses". */
  function Listed(e: Entry): (r: Option<string>)
    ensures r.Some? <==> e.cid.Some? && !Contains(e.name, AllCourses)
    ensures r.Some? ==> r == e.cid
  {
    if e.cid.Some? && !Contains(e.name, AllCourses) then e.cid else None
  }

  /** `courses_to_scrape`: the ids in insertion order and the name each maps to. */
  datatype Courses = Courses(order: seq<string>, names: map<string, string>)

  /** One entry's effect on the table: a listed course that is not yet in
      the table is added at the end, under the entry's text. */
  function Admit(t: Courses, e: Entry): Courses
  {
    match Listed(e)
    case Some(cid) => if cid in t.names then t else Courses(t.order + [cid], t.names[cid := e.name])
    case None => t
  }

  /** The table the loop of `main` builds, entry by entry. The order holds
      each key once, and no name mentions "All Courses". */
  function CourseTable(es: seq<Entry>): (t: Courses)
    ensures Distinct(t.order)
    ensures forall c :: c in t.order <==> c in t.names
    ensures forall c :: c in t.names ==> !Contains(t.names[c], AllCourses)
    decreases |es|
  {
    if es == [] then Courses([], map[]) else Admit(CourseTable(es[..|es| - 1]), es[|es| - 1])
  }

  /** Every course of the table of a page's anchors is a digit string. */
  lemma {:induction false} CourseTableIds(es: seq<Entry>)
    requires forall k :: 0 <= k < |es| && es[k].cid.Some? ==> IsDigitString(es[k].cid.value)
    ensures forall c :: c in CourseTable(es).names ==> IsDigitString(c)
    decreases |es|
  {
    if es != [] {
      CourseTableIds(es[..|es| - 1]);
    }
  }

  /** The text of the first entry listing course `cid`, read front to back. */
  function FirstName(es: seq<Entry>, cid: string): Option<string>
    decreases |es|
  {
    if es == [] then None
    else if Listed(es[0]) == Some(cid) then Some(es[0].name)
    else FirstName(es[1..], cid)
  }

  /** One more entry at the back only matters when no earlier one listed the course. */
  lemma {:induction false} FirstNameSnoc(es: seq<Entry>, e: Entry, cid: string)
    ensures FirstName(es + [e], cid) ==
      if FirstName(es, cid).Some? then FirstName(es, cid)
      else if Listed(e) == Some(cid) then Some(e.name) else None
    decreases |es|
  {
    if es == [] {
      assert [e][1..] == [];
    } else {
      assert (es + [e])[1..] == es[1..] + [e];
      FirstNameSnoc(es[1..], e, cid);
    }
  }

  /** The table holds a course exactly when some entry lists it, under the
      text of the first such entry. */
  lemma {:induction false} CourseTableFirst(es: seq<Entry>, cid: string)
    ensures var t := CourseTable(es);
      (cid in t.names <==> FirstName(es, cid).Some?) &&
      (cid in t.names ==> t.names[cid] == FirstName(es, cid).value)
    decreases |es|
  {
    if es != [] {
      var init := es[..|es| - 1];
      var e := es[|es| - 1];
      CourseTableFirst(init, cid);
      assert es == init + [e];
      FirstNameSnoc(init, e, cid);
    }
  }

  /** A course is listed by some entry exactly when `FirstName` finds it. */
  lemma {:induction false} FirstNameFound(es: seq<Entry>, cid: string)
    ensures FirstName(es, cid).Some? <==> exists i :: 0 <= i < |es| && Listed(es[i]) == Some(cid)
    decreases |es|
  {
    if es != [] {
      FirstNameFound(es[1..], cid);
      if Listed(es[0]) != Some(cid) {
        forall i | 0 <= i < |es| && Listed(es[i]) == Some(cid)
          ensures 1 <= i && Listed(es[1..][i - 1]) == Some(cid)
        {
        }
      } else {
        assert Listed(es[0]) == Some(cid);
      }
    }
  }

  /** The position of the first entry that lists course `cid`, if any. */
  function FirstListing(es: seq<Entry>, cid: string): (r: Option<nat>)
    ensures r.Some? ==> r.value < |es| && Listed(es[r.value]) == Some(cid)
    ensures r.Some? ==> forall j :: 0 <= j < r.value ==> Listed(es[j]) != Some(cid)
    ensures r.None? ==> forall j :: 0 <= j < |es| ==> Listed(es[j]) != Some(cid)
    decreases |es|
  {
    if es == [] then None
    else
      var p := FirstListing(es[..|es| - 1], cid);
      if p.Some? then p
      else if Listed(es[|es| - 1]) == Some(cid) then Some(|es| - 1)
      else None
  }

  /** The table holds exactly the courses some entry lists. */
  lemma CourseTableMembers(es: seq<Entry>, cid: string)
    ensures cid in CourseTable(es).names <==> FirstListing(es, cid).Some?
  {
    CourseTableFirst(es, cid);
    FirstNameFound(es, cid);
  }

  /** An entry at the back does not move a course that was listed before it. */
  lemma FirstListingKept(es: seq<Entry>, cid: string)
    requires es != [] && FirstListing(es[..|es| - 1], cid).Some?
    ensures FirstListing(es, cid) == FirstListing(es[..|es| - 1], cid)
  {
  }

  /** The table's order is the order in which each course is first listed. */
  lemma {:induction false} CourseTableOrder(es: seq<Entry>)
    ensures var t := CourseTable(es);
      forall i, j :: 0 <= i < j < |t.order| ==>
        FirstListing(es, t.order[i]).Some? && FirstListing(es, t.order[j]).Some? &&
        FirstListing(es, t.order[i]).value < FirstListing(es, t.order[j]).value
    decreases |es|
  {
    if es != [] {
      var init := es[..|es| - 1];
      var e := es[|es| - 1];
      CourseTableOrder(init);
      var t0 := CourseTable(init);
      var t := CourseTable(es);
      assert t == Admit(t0, e);
      forall i | 0 <= i < |t0.order|
        ensures FirstListing(init, t0.order[i]).Some?
        ensures FirstListing(es, t0.order[i]) == FirstListing(init, t0.order[i])
      {
        assert t0.order[i] in t0.names;
        CourseTableMembers(init, t0.order[i]);
        FirstListingKept(es, t0.order[i]);
      }
      if Listed(e).Some? && Listed(e).value !in t0.names {
        var cid := Listed(e).value;
        assert t.order == t0.order + [cid];
        CourseTableMembers(init, cid);
        assert FirstListing(es, cid) == Some(|es| - 1);
      } else {
        assert t == t0;
      }
    }
  }

  /** One turn of the loop of `main`. */
  lemma CourseTableSnoc(es: seq<Entry>, i: nat)
    requires i < |es|
    ensures CourseTable(es[..i + 1]) == Admit(CourseTable(es[..i]), es[i])
  {
    assert es[..i + 1][..i] == es[..i];
  }

  /** The body of the loop of `main`, once the anchor's course id is known. */
  method AdmitEntry(order: seq<string>, names: map<string, string>, e: Entry)
    returns (order': seq<string>, names': map<string, string>)
    ensures Courses(order', names') == Admit(Courses(order, names), e)
  {
    order', names' := order, names;
    if e.cid.Some? {
      if !Contains(e.name, AllCourses) && e.cid.value !in names {
        names' := names[e.cid.value := e.name];
        order' := order + [e.cid.value];
      }
    }
  }

  /** One turn of the loop of `main`, in terms of the anchors. */
  lemma CollectStep(anchors: seq<Anchor>, i: nat)
    requires i < |anchors|
    ensures CourseTable(Entries(anchors)[..i + 1]) == Admit(CourseTable(Entries(anchors)[..i]), EntryOf(anchors[i]))
  {
    EntriesAt(anchors, i);
    CourseTableSnoc(Entries(anchors), i);
  }

  /** The loop of `main` over the anchors of the course list. */
  method CollectCourses(anchors: seq<Anchor>) returns (order: seq<string>, names: map<string, string>)
    ensures Courses(order, names) == CourseTable(Entries(anchors))
  {
    order, names := [], map[];
    var i := 0;
    while i < |anchors|
      invariant 0 <= i <= |anchors|
      invariant Courses(order, names) == CourseTable(Entries(anchors)[..i])
    {
      CollectStep(anchors, i);
      order, names := AdmitEntry(order, names, EntryOf(anchors[i]));
      i := i + 1;
    }
    assert Entries(anchors)[..i] == Entries(anchors);
  }

  /** Every course of the table read off a page's anchors has a digit id. */
  lemma CollectedIdsAreDigits(anchors: seq<Anchor>)
    ensures forall c :: c in CourseTable(Entries(anchors)).names ==> IsDigitString(c)
  {
    var es := Entries(anchors);
    forall k | 0 <= k < |es| && es[k].cid.Some?
      ensures IsDigitString(es[k].cid.value)
    {
      EntriesAt(anchors, k);
    }
    CourseTableIds(es);
  }

  /** One turn of the loop of `main`, `process_course(page, cid, cname)`, seen
      from the download directory: the course folder exists and holds its
      list of links, every file of every folder but a list of links stays,
      and no other folder changes. */
  method RunOne(site: Site, env: Env, domain: string, cid: string, name: string, lib: Library)
    returns (lib': Library)
    ensures HasList(lib', SanitizeFilename(name))
    ensures KeepsFiles(lib, lib')
    ensures forall k :: k in lib' && k != SanitizeFilename(name) ==> k in lib && lib'[k] == lib[k]
  {
    var links;
    ghost var visited, files, externals, media;
    lib', links, visited, files, externals, media := ProcessCourse(site, env, cid, name, domain, lib);
    LibraryStep(env, files, externals, media, lib, name);
  }

  /** The folder names of the courses `cs`, in order. */
  function FolderList(names: map<string, string>, cs: seq<string>): seq<string>
    requires forall c :: c in cs ==> c in names
    decreases |cs|
  {
    if cs == [] then [] else FolderList(names, cs[..|cs| - 1]) + [SanitizeFilename(names[cs[|cs| - 1]])]
  }

  lemma FolderListSnoc(names: map<string, string>, cs: seq<string>, i: nat)
    requires forall c :: c in cs ==> c in names
    requires i < |cs|
    ensures FolderList(names, cs[..i + 1]) == FolderList(names, cs[..i]) + [SanitizeFilename(names[cs[i]])]
  {
    assert cs[..i + 1][..i] == cs[..i];
  }

  /** A folder is listed exactly when one of the courses maps to it. */
  lemma {:induction false} FolderListMembers(names: map<string, string>, cs: seq<string>)
    requires forall c :: c in cs ==> c in names
    ensures forall k :: k in FolderList(names, cs) <==> exists c :: c in cs && SanitizeFilename(names[c]) == k
    decreases |cs|
  {
    if cs != [] {
      var init := cs[..|cs| - 1];
      FolderListMembers(names, init);
      assert cs == init + [cs[|cs| - 1]];
    }
  }

  /** The download directory after the courses whose folders are `folders`:
      each of those folders holds a list of links, no file but a list of links
      was lost or altered, and every other folder is as it was. */
  predicate Reached(lib: Library, lib': Library, folders: seq<string>)
  {
    (forall k :: k in folders ==> HasList(lib', k)) && KeepsFiles(lib, lib') &&
    forall k :: k in lib' && k !in folders ==> k in lib && lib'[k] == lib[k]
  }

  /** One more course, into folder `safe`, moves the directory on by one folder. */
  lemma ReachedStep(lib: Library, before: Library, after: Library, folders: seq<string>, safe: string)
    requires Reached(lib, before, folders)
    requires HasList(after, safe) && KeepsFiles(before, after)
    requires forall k :: k in after && k != safe ==> k in before && after[k] == before[k]
    ensures Reached(lib, after, folders + [safe])
  {
    KeepsFilesTrans(lib, before, after);
  }

  /** `for cid, cname in courses_to_scrape.items(): process_course(...)`: the
      courses in insertion order, each with the server and clock it meets
      (`envs(cid)`). Every course folder exists and holds its list of links,
      no file of any folder but a list of links is lost or altered, and a
      folder no course maps to is as it was. */
  method RunAll(site: Site, envs: string -> Env, domain: string, order: seq<string>,
                names: map<string, string>, lib: Library)
    returns (lib': Library)
    requires forall c :: c in order ==> c in names
    ensures forall c :: c in order ==> HasList(lib', SanitizeFilename(names[c]))
    ensures KeepsFiles(lib, lib')
    ensures forall k :: k in lib' && (forall c :: c in order ==> SanitizeFilename(names[c]) != k) ==>
      k in lib && lib'[k] == lib[k]
  {
    lib' := lib;
    ghost var folders: seq<string> := [];
    var i := 0;
    while i < |order|
      invariant 0 <= i <= |order| && folders == FolderList(names, order[..i])
      invariant Reached(lib, lib', folders)
    {
      var cid := order[i];
      ghost var before := lib';
      lib' := RunOne(site, envs(cid), domain, cid, names[cid], lib');
      ReachedStep(lib, before, lib', folders, SanitizeFilename(names[cid]));
      FolderListSnoc(names, order, i);
      folders := folders + [SanitizeFilename(names[cid])];
      i := i + 1;
    }
    assert order[..i] == order;
    FolderListMembers(names, order);
  }

  /** `main` once the browser is up: the course list page gives its anchors,
      or `None` when loading or reading it raised, and then nothing is
      downloaded. Otherwise the table is built and every course in it is run. */
  method Run(site: Site, listing: Option<seq<Anchor>>, envs: string -> Env, domain: string, lib: Library)
    returns (lib': Library)
    ensures listing.None? ==> lib' == lib
    ensures listing.Some? ==> var t := CourseTable(Entries(listing.value));
      (forall c :: c in t.names ==> IsDigitString(c) && HasList(lib', SanitizeFilename(t.names[c]))) &&
      KeepsFiles(lib, lib') &&
      forall k :: k in lib' && (forall c :: c in t.names ==> SanitizeFilename(t.names[c]) != k) ==>
        k in lib && lib'[k] == lib[k]
  {
    if listing.None? {
      return lib;
    }
    var order, names := CollectCourses(listing.value);
    CollectedIdsAreDigits(listing.value);
    lib' := RunAll(site, envs, domain, order, names, lib);
  }
}
