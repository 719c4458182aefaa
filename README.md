# Canvas course file downloader — a Dafny model

`script.py` is a scraper for a Canvas LMS site. It reads the list of courses
from the dashboard. For each course it crawls the course pages inside a logged-in
browser and sorts every link it meets into three sets:

- Canvas files, rewritten to their canonical
  `https://<domain>/courses/<cid>/files/<id>/download?download_frd=1` endpoint;
- media (direct `.mp4`/`.mp3`/... files, HLS playlists or player hosts);
- other external links.

It then downloads the files and the direct media into a folder named after the
course, and writes the remaining links, sorted and free of duplicates, to
`external_links.txt`.

The model follows the program's structure, one module per layer:

| module | file | models |
|---|---|---|
| `Strings` | `strings.dfy` | the string operations the script uses (`in`, `startswith`, `endswith`, `lower`, `strip`, `split`, `isdigit`, string order) |
| `Urls` | `urls.dfy` | `urllib.parse.urlparse` (Python 3.12: `urlsplit` plus the `;params` split) |
| `Classifier` | `classifier.dfy` | `sanitize_filename`, `is_direct_media_file`, `is_external_url`, `is_media_url`, `normalize_file_url` |
| `Downloader` | `downloader.dfy` | `download_resource`: choosing the file name, the skip-if-present test and the chunked write |
| `Crawler` | `crawler.dfy` | `get_course_content` and `scrape_media_robust`: the worklist crawl over a renderer given as a map from URL to page |
| `Manifest` | `manifest.dfy` | `sorted(list(set(...)))` and writing `external_links.txt` as UTF-8 |
| `Course` | `course.dfy` | `process_course`: the folder, the crawl, both download loops and the list of links |
| `Orchestrator` | `orchestrator.dfy` | `main` after the browser is up: the course table and the run over it |

The system's state and its surroundings are modelled as follows.

- **The download directory** is a map from folder names to folders. A folder is
  a map from file names to bytes.
- **The network** is a function from URL to `Fetch`. A `Fetch` is either a
  connection failure or a response: status, `Content-Disposition`, final URL,
  chunks, and whether the stream broke.
- **The clock** is a function from the index of a download within a course to a
  whole number of seconds (`int(time.time())`).
- **The browser** is a map from URL to the page it renders. A page is a
  navigation failure or its final URL, its anchors' `href` values and its media
  `src` values.

The loops of the script are methods with loop invariants. Each is proved
against a function that states their result:

- `Crawler.Crawl` against `HarvestOf`, the least set of pages closed under
  the links they queue;
- `Course.DownloadAll` and `Course.ProcessMedia` against `Stores`, a fold of
  `Download` over the URLs;
- `Manifest.WriteManifest` against `Encode(ManifestText(..))`;
- `Orchestrator.CollectCourses` against `CourseTable`.

The functions then carry the lemmas:

- a download never overwrites a file;
- a re-run of a course, under any clock and with the crawl's lists in any
  order, leaves its folder as it was, unless a file was named after the clock
  (`Course.RunCourseRerun`);
- the list of links holds each external link and each non-direct media URL
  exactly once, in order;
- each course folder ends up holding its list of links.

Some consequences of the code that the lemmas make explicit:

- The canonical file endpoint ends in `/download`. A Canvas file whose response
  has no `Content-Disposition` filename and was not redirected therefore gets a
  timestamp name (`EndpointGetsTimestampName`). A redirect to a storage URL gives
  that URL's last path segment instead (`UrlFallback`).
- A timestamp-named file is saved again, under a new name, by a run in a later
  second, unless a file of that name is present already (`TimestampRerunSaves`).
- Two such files fetched within the same second collide, and the second is
  skipped as already present (`SameSecondCollides`).
- The crawl's three result sets are not disjoint. A URL can be both a file
  and a media item, for example when it is reached once as a final URL and once
  as an anchor. Nothing in the code prevents this, and the model does not
  assume otherwise.
- Courses whose names sanitise to the same folder name share a folder. The
  later course rewrites the earlier course's `external_links.txt`.

## Model

| member | source | states |
|---|---|---|
| Urls.Parse | script.py:75 | the parsed network location holds no `/`, `?` or `#`; the path holds no `?` or `#`; the scheme is made of scheme characters |
| Urls.SplitSchemeParts | script.py:75 | the scheme is the lower-cased scheme as written, and scheme, `:` and the rest spell the URL again |
| Urls.SplitNetlocParts | script.py:75 | `//`, the network location and what follows spell the rest again; without `//` there is no network location |
| Urls.CutAtParts | script.py:75 | what precedes the first `#` (or `?`), the mark and what follows spell the text again; without the mark nothing follows |
| Urls.CutParamsParts | script.py:75 | path, `;` and params spell what precedes the query again; without a cut the params are empty |
| Urls.ParseRoundTrip | script.py:75 | `urlparse` loses only the case of the scheme: its six parts, each behind the mark it was cut at, spell the URL again, and a part whose mark is absent is empty |
| Urls.PathIsSuffix | script.py:94 | without query, fragment or params, the parsed path is a suffix of the URL |
| Classifier.ReplaceIllegal | script.py:63 | same length; no illegal character is left; every legal character is kept in place and every one of `<>:"/\|?*` becomes `_` |
| Classifier.SanitizeFilename | script.py:61-63 | the result holds no illegal character, does not start or end with whitespace, and is no longer than the input |
| Classifier.SanitizeReplaces | script.py:63 | each character of the result is the input character at the stripped offset, replaced by `_` when illegal |
| Classifier.SanitizeFixpoint | script.py:61-63 | a name with no illegal character and no surrounding whitespace is left unchanged |
| Classifier.SanitizeIdempotent | script.py:61-63 | sanitising twice gives the same as sanitising once |
| Classifier.PlaylistIsMedia | script.py:129-134 | a URL ending (case-insensitively) in `.m3u8` is a media URL |
| Classifier.PlaylistIsNotDirect | script.py:69-76 | a URL whose path ends in `.m3u8` is not a direct media file, so it goes to the list of links |
| Classifier.DirectIsMedia | script.py:69-76 | a plain URL (no query, fragment or params) that is a direct media file is also a media URL |
| Classifier.RelativeIsNotExternal | script.py:124-127 | a URL without a network location is never external |
| Classifier.CanvasHostIsInternal | script.py:124-127 | a URL whose network location contains `instructure.com` anywhere is not external (a substring test, not host equality) |
| Classifier.MediaHostIsMedia | script.py:136-139 | a non-empty URL whose network location contains a listed media host is a media URL, whatever its path |
| Classifier.EmptyUrlIsNothing | script.py:69-140 | the empty URL is neither external, nor media, nor a direct media file |
| Classifier.FindFileId | script.py:118 | finds the leftmost `/files/<digit>` match at or after the start index, or proves there is none |
| Classifier.NormalizeFileUrl | script.py:117-122 | with no `/files/<digits>` match the URL is returned unchanged; otherwise the result is the download endpoint of the leftmost match's digit run |
| Classifier.LeftmostFileId | script.py:118-120 | `re.search` picks the leftmost match, and its group is a non-empty digit string |
| Classifier.EndpointFileId | script.py:121 | the file id found in a download endpoint is the id it was built from |
| Classifier.NormalizeIdempotent | script.py:117-122 | normalising a normalised URL changes nothing |
| Classifier.EndpointParsedPath | script.py:121 | the parsed path of the endpoint is `/courses/<cid>/files/<id>/download` |
| Classifier.EndpointIsInternal | script.py:124-127 | the endpoint on an `instructure.com` domain is not external |
| Downloader.FirstFilename | script.py:88-90 | no value exactly when `filename="?([^"]+)"?` matches nowhere; a value is non-empty and quote-free, and is the whole run of non-quote characters after the leftmost match, ended by a quote or the end of the header |
| Downloader.DispositionName | script.py:88-90 | `filename=name` and `filename="name"`, followed by nothing or by a quote, yield `name` |
| Downloader.DispositionKeepsParameters | script.py:88-90 | an unquoted filename takes the rest of the header with it: `attachment; filename=a.pdf; size=3` gives `a.pdf; size=3` |
| Downloader.PercentDecode | script.py:95 | `unquote` never lengthens the text |
| Downloader.DecodeQuoted | script.py:95 | `unquote` inverts percent-quoting of every `%` |
| Downloader.DecodePlain | script.py:95 | text without `%` is unquoted to itself |
| Downloader.Basename | script.py:95 | the result is the part after the last `/`, or the whole path without one |
| Downloader.UrlFilename | script.py:93-95 | the name taken from the URL holds no `/` |
| Downloader.TimestampName | script.py:99 | `resource_<t>.dat` is neither empty nor `download` |
| Downloader.ChooseName | script.py:84-99 | the chosen name is neither empty nor `download` |
| Downloader.ResolveName | script.py:84-101 | the final name holds no illegal character and no surrounding whitespace |
| Downloader.HeaderWins | script.py:84-101 | a usable `Content-Disposition` filename is used, sanitised |
| Downloader.UrlFallback | script.py:92-101 | without a header filename, a usable URL basename is used, sanitised |
| Downloader.TimestampFallback | script.py:97-101 | otherwise the timestamp name is used |
| Downloader.NameIgnoresClock | script.py:84-99 | a name not taken from the clock does not depend on it |
| Downloader.EndpointUrlFilename | script.py:92-95 | the URL basename of a download endpoint is `download` |
| Downloader.EndpointGetsTimestampName | script.py:92-99 | a download endpoint with no header filename is given the timestamp name |
| Downloader.DownloadNeverOverwrites | script.py:104-112 | existing files are kept unchanged; the only new file is the resolved name holding the body |
| Downloader.ErrorLeavesFolder | script.py:80-115 | a connection failure or a 4xx/5xx status fails and leaves the folder unchanged |
| Downloader.SavedHoldsBody | script.py:101-112 | a saved file had a new name, the resolved one, and holds the concatenated chunks |
| Downloader.StoreTwice | script.py:104-106 | storing under the same name a second time changes nothing and saves nothing |
| Downloader.DownloadIdempotent | script.py:78-115 | repeating a download at the same clock reading changes nothing and saves nothing |
| Downloader.RerunSameName | script.py:104-106 | a later download that resolves to the same name is skipped |
| Downloader.RerunSkips | script.py:84-106 | a response named without the clock is skipped on any later run |
| Downloader.TimestampNameClean | script.py:99-101 | sanitising leaves a timestamp name unchanged |
| Downloader.TimestampNamesDiffer | script.py:99 | different clock readings give different timestamp names |
| Downloader.TimestampRerunSaves | script.py:97-112 | a timestamp-named response fetched again in a later second is saved again under the new name when that name is free |
| Downloader.SameSecondCollides | script.py:97-106 | two timestamp-named responses in one second share a name, and the second is skipped |
| Downloader.WriteChunks | script.py:110-112 | the file holds the chunks concatenated in order; no other file changes |
| Downloader.DownloadResource | script.py:78-115 | outcome and folder are those of `Download` |
| Crawler.CleanUrl | script.py:234 | `scheme://netloc path` holds no `?` or `#` and ends in the path |
| Crawler.RouteAnchor | script.py:219-236 | an anchor is skipped exactly for the empty, `javascript:`/`mailto:`/`#`/`tel:` and `{{` cases; otherwise it goes to files (normalised), media or externals in script.py's branch order, or is queued, never with a query or fragment |
| Crawler.QueuedShape | script.py:230-236 | a queued URL is `scheme://netloc path` of a course page of this course |
| Crawler.RoutesHarvestMembers | script.py:219-236 | a URL is in each result set exactly when some anchor was routed there |
| Crawler.FinalRoute | script.py:193-203 | a final URL under `/files/` with `download` or a file id becomes a file, before the external test; only such a URL becomes a file; any other external one becomes media or a link; any other page is scraped |
| Crawler.RoutesHarvestPrefix | script.py:219-236 | the first anchors of a page collect part of what all of them collect |
| Crawler.CutShortScrape | script.py:210-238 | a scrape cut short by an exception after some anchors keeps the page's media and those anchors' files, and adds nothing the whole page would not |
| Crawler.HarvestOfAdd | script.py:182-236 | visiting one more page adds exactly that page's files, external links and media to the result |
| Crawler.KeepMedia | script.py:212-215 | the media sources kept are those that are non-empty and start with neither `blob:` nor `javascript:` |
| Crawler.ScrapeAnchor | script.py:223-236 | one anchor updates the sets as its route says, and a visited page is not queued |
| Crawler.ScrapeLinks | script.py:218-236 | the anchors of a page add their routes' URLs, and the unvisited course pages are queued |
| Crawler.VisitPage | script.py:189-239 | one visit adds what the page harvests; a navigation failure changes nothing |
| Crawler.FrontierStep | script.py:182-236 | popping a page keeps the frontier invariant: every link of a visited page is visited or queued |
| Crawler.CrawlStep | script.py:182-236 | one iteration keeps the crawl invariant and shrinks the set of unvisited reachable pages |
| Crawler.CrawlEnd | script.py:182-241 | an empty queue means the visited set is the least set of pages closed under links that holds the seeds |
| Crawler.Crawl | script.py:173-241 | the crawl terminates; it visits each page once, exactly the least closed set of pages containing the three seeds; its three sets are the union of what those pages give |
| Manifest.InsertSorted | script.py:279 | inserting keeps a strictly sorted sequence sorted and adds exactly the new link |
| Manifest.SortedUniqueSpec | script.py:279 | `sorted(list(set(links)))` is strictly sorted and holds exactly the links |
| Manifest.SortedSequencesUnique | script.py:279 | two strictly sorted sequences with the same members are equal |
| Manifest.SortedUniqueOfSameLinks | script.py:279 | the list depends only on which links there are, not on their order or repetitions |
| Manifest.ManifestLines | script.py:280-282 | read back line by line, the text gives back the links and a last empty line |
| Manifest.Utf8 | script.py:280 | one to four bytes; one byte exactly for ASCII; multi-byte encodings hold no ASCII byte |
| Manifest.FlattenAppend | script.py:280-282 | encoding distributes over concatenation |
| Manifest.NewlineBytes | script.py:280-282 | the encoded text holds byte 10 exactly where it holds a line break |
| Manifest.WriteManifest | script.py:280-282 | the list is truncated, then holds the encoded text of all links; no other file changes |
| Course.StoresKeep | script.py:262-264 | a run of downloads keeps every file that was there |
| Course.StoresNew | script.py:262-264 | every new file was named by a successfully served download of the run |
| Course.StoresCover | script.py:262-264 | after the run every served resource's name exists |
| Course.StoresFixed | script.py:104-106 | when every served name already exists, the run changes nothing |
| Course.StoresIdempotent | script.py:262-264 | running the same downloads again at the same clock readings changes nothing |
| Course.JobsStep | script.py:262-264 | one more download extends the fold by that download |
| Course.DownloadNext | script.py:263 | the folder after one more download is the fold over one more URL |
| Course.DownloadAll | script.py:262-264 | the folder after the files loop is the fold of `download_resource` over the files in order |
| Course.FilterMembers | script.py:267-274 | the kept (or passed-over) URLs are exactly those the test accepts (or rejects) |
| Course.FilterPartition | script.py:267-274 | every media URL goes to exactly one side |
| Course.MediaSplit | script.py:267-274 | the media split into direct files and links, by `is_direct_media_file` |
| Course.ProcessMedia | script.py:266-274 | the direct media are downloaded in order after the files; the others are appended to the links in order |
| Course.ListOf | script.py:241 | `list(s)` holds each member of the set once |
| Course.RunCourseLinks | script.py:266-279 | the written list is strictly sorted and holds exactly the external links and the non-direct media |
| Course.RunCourseKeeps | script.py:262-282 | the course folder keeps all its files except the list, which holds the encoded links |
| Course.JobsNew | script.py:262-264 | a new file came from one of the URLs at some clock reading |
| Course.RunCourseNew | script.py:262-275 | a new file other than the list came from a Canvas file or a direct media URL |
| Course.RerunFixed | script.py:262-264 | downloads of a subset of the URLs, under any clock, change nothing once every name of a clock-free first run exists |
| Course.RerunDownloads | script.py:262-275 | both download loops of a second run leave alone a folder that holds every name of the first run |
| Course.RerunLinks | script.py:266-279 | the same links and media in any order give the same list of links |
| Course.RunCourseRerun | script.py:262-282 | a second run of a course under any clock, with the crawl's lists in any order, leaves the folder as the first run left it, when no file or direct media is named after the clock |
| Course.LibraryStep | script.py:246-282 | a course run leaves its folder with a list, loses no file but a list, and changes no other folder |
| Course.ProcessCourse | script.py:243-282 | the crawl is the least closed set of pages; the three lists are the crawl's sets, each once; the library gains the course folder `RunCourse` describes and nothing else |
| Orchestrator.PathSegments | script.py:316 | `path.strip('/').split('/')` has at least one part |
| Orchestrator.CourseIdIn | script.py:317-320 | an id is found exactly when the segment after the first `courses` segment exists and is all digits, and then it is that segment |
| Orchestrator.CourseIdInPath | script.py:316-320 | a found id appears as `courses/<id>` in the parsed path |
| Orchestrator.CourseUrlId | script.py:316-320 | the course's own URL yields its id |
| Orchestrator.CourseTable | script.py:314-323 | ids in insertion order, each once; the same keys as the name map; no name mentions "All Courses" |
| Orchestrator.CourseTableIds | script.py:319-320 | every key of the table is a digit string |
| Orchestrator.FirstNameSnoc | script.py:322-323 | the first listed name of one more entry |
| Orchestrator.CourseTableFirst | script.py:322-323 | a course is in the table exactly when some entry lists it, under the first entry's text |
| Orchestrator.FirstNameFound | script.py:322-323 | a first name exists exactly when some entry lists the course |
| Orchestrator.FirstListing | script.py:322-323 | the position found is the first entry that names the course with a text not mentioning "All Courses"; no position means no entry does |
| Orchestrator.CourseTableMembers | script.py:322-323 | a course is in the table exactly when some entry lists it |
| Orchestrator.CourseTableOrder | script.py:314-323 | the table's order is the order in which the courses are first listed |
| Orchestrator.AdmitEntry | script.py:315-323 | one entry updates the table as `Admit` says |
| Orchestrator.CollectCourses | script.py:314-323 | the loop builds the table `CourseTable` describes |
| Orchestrator.CollectedIdsAreDigits | script.py:316-320 | every collected course id is a digit string |
| Orchestrator.RunOne | script.py:331-332 | one course run leaves its folder with a list, loses no file but a list, and changes no other folder |
| Orchestrator.FolderListMembers | script.py:331-332 | a folder is listed exactly when some course maps to it |
| Orchestrator.ReachedStep | script.py:331-332 | one more course extends the invariant of the run loop by its folder |
| Orchestrator.RunAll | script.py:331-332 | every course folder holds a list; no file but lists is lost or altered; folders no course maps to are unchanged |
| Orchestrator.Run | script.py:302-332 | a failure while listing the courses downloads nothing; otherwise every listed course, each with a digit id, has its folder and list, and nothing else changes |

## Left out

- The browser (Playwright launch, contexts, cookies, `networkidle` and
  selector waits, frames) is replaced by the renderer map. `scrape_media_robust`'s
  locator queries become the page's list of `src` values, whose empty entries are dropped.
- The JavaScript run by `page.evaluate` is not modelled. The anchors
  (`href` and trimmed non-empty text) are taken as given.
- Exceptions are modelled only where the code catches them: a failing
  `page.goto` (`NavigationFailure`, which adds nothing but the visit), a failing
  `session.get`, an error status, a broken stream, and a failure while listing
  the courses. A page whose scrape raises after it was reached (in
  `page.evaluate` at script.py:218, or part-way through the anchor loop) keeps
  the media already added (script.py:213-215). The model expresses such a page as
  `Rendered` with only the sources and anchors read before the exception
  (`CutShortScrape`); the renderer map says which pages these are. Failures of
  `open`, `os.makedirs` or disk writes are not modelled.
- `Downloader.PercentDecode`: decodes each `%XX` to the character with that code.
  It does not model `unquote`'s UTF-8 decoding of multi-byte sequences.
- `Strings.Lower` and `Strings.IsDigit` cover ASCII only. Python's Unicode
  `lower()` and `isdigit()`, and the `\d` of the patterns at script.py:118 and
  script.py:194, accept more characters.
- `Manifest.NewlineBytes`: `open(..., "w")` at script.py:280 writes each line
  break as it is on POSIX systems. On Windows text mode writes `\r\n`, which the
  model does not capture.
- `Urls.Parse` does not model `urlparse`'s `ValueError` on malformed IPv6 hosts,
  nor the stripping of control characters from the URL. A `ValueError` raised
  on an anchor at script.py:231 ends that page's anchor loop. The earlier
  anchors' routes and the page's media stay, which is the cut-short page of
  `CutShortScrape`.
- The `COOKIES` placeholder check, the creation of `DOWNLOAD_DIR`, the
  `requests` session with its headers and cookies (`get_requests_cookies`), the
  configuration constants other than the domain, and the closing of the browser
  have no effect on the modelled state and are left out.
- All `print` output is left out.
- `Course.Env`: the clock is indexed by the position of the download within the
  course, not by real time, and each course gets its own server and clock
  (`envs`).
- `Course.ListOf`: in the model, the order of `list(set)` is the order in which
  members happen to be chosen. Python's hash order is not modelled.
- `Crawler.Crawl`: `queue.pop()` takes an arbitrary member, as Python's set
  `pop` does. The guard `if url in visited: continue` never fires, because a
  visited URL is never queued. `Crawler.CrawlStep` proves the popped URL
  unvisited, so the guard is not modelled as a branch.
- Course.CourseFolder: a course name that sanitises to `""`, `.` or `..`
  names `DOWNLOAD_DIR` itself or its parent (script.py:247-248). The model keys
  the library by the sanitised name and gives such a course a folder of its own.
  Its files therefore do not sit beside the course folders, and the exists test
  at script.py:104 does not see those folders.
- `Downloader.Exists`: the folder's own name (`""`, `.` and `..`) always
  exists. Sub-directories are not modelled. Nor is a sanitised name that names
  some other existing path through `os.path.join`.
