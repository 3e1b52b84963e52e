/**
 * The class `IliasDownloaderUniMA` of `IliasDL.py`: its lists and its
 * parameter dictionary, and the methods that change them. Every method
 * is proved to leave the object in the state a function of the other
 * modules describes; pages, titles and answers of the server are inputs.
 */
module Downloader {
  import opened Wrappers
  import opened Text
  import opened Urls
  import opened Classify
  import opened FileProperties
  import opened Courses
  import opened Listing
  import opened Background
  import opened Download
  import opened Traversal
  import opened Seqs

  // ---------------------------------------------------------------------------
  // Parameters

  /** A parameter value: Python's `int`, `bool` or `str` (a `bool` is not an exact `int` here, as for `type(v) is int`). */
  datatype Value = IntVal(i: int) | BoolVal(b: bool) | StrVal(s: string)

  /** The dictionary `__init__` sets up. */
  function DefaultParams(cwd: string): map<string, Value> {
    map["num_scan_threads" := IntVal(5), "num_download_threads" := IntVal(5),
        "download_path" := StrVal(cwd), "tutor_mode" := BoolVal(false), "verbose" := BoolVal(false)]
  }

  /** Every parameter is present with a value of its type. */
  predicate WellTyped(params: map<string, Value>) {
    && "num_scan_threads" in params && params["num_scan_threads"].IntVal?
    && "num_download_threads" in params && params["num_download_threads"].IntVal?
    && "download_path" in params && params["download_path"].StrVal?
    && "tutor_mode" in params && params["tutor_mode"].BoolVal?
    && "verbose" in params && params["verbose"].BoolVal?
  }

  /**
   * The test of `setParam`: thread counts take an exact `int`, the download
   * path a string naming an existing directory (`isDir` is what
   * `os.path.isdir` answers), `verbose` and `tutor_mode` a `bool`.
   */
  predicate Accepts(param: string, value: Value, isDir: bool) {
    || (param in ["num_scan_threads", "num_download_threads"] && value.IntVal?)
    || (param == "download_path" && value.StrVal? && isDir)
    || (param in ["verbose", "tutor_mode"] && value.BoolVal?)
  }

  /** The dictionary after `setParam(param, value)`. */
  function SetParamResult(params: map<string, Value>, param: string, value: Value, isDir: bool)
    : (r: map<string, Value>)
    ensures Accepts(param, value, isDir) ==> param in r && r[param] == value
    ensures forall k | k != param :: (k in r <==> k in params) && (k in r ==> r[k] == params[k])
    ensures !Accepts(param, value, isDir) ==> r == params
  {
    if Accepts(param, value, isDir) then params[param := value] else params
  }

  /** `setParam` keeps every parameter present and of its type. */
  lemma SetParamWellTyped(params: map<string, Value>, param: string, value: Value, isDir: bool)
    requires WellTyped(params)
    ensures WellTyped(SetParamResult(params, param, value, isDir))
    ensures SetParamResult(params, param, value, isDir).Keys == params.Keys
  {
    var r := SetParamResult(params, param, value, isDir);
    if Accepts(param, value, isDir) {
      assert param in params by {
        assert param in ["num_scan_threads", "num_download_threads"] || param == "download_path"
          || param in ["verbose", "tutor_mode"];
      }
    }
  }

  /** A parameter the class does not know is never stored, and `True` is not a thread count. */
  lemma SetParamRejects(params: map<string, Value>, param: string, value: Value, isDir: bool)
    requires param !in DefaultParams("").Keys || (param == "num_scan_threads" && value == BoolVal(true))
    ensures SetParamResult(params, param, value, isDir) == params
  {
  }

  /** The value stored under `tutor_mode` decides whether task units queue submissions. */
  function TutorMode(params: map<string, Value>): bool {
    "tutor_mode" in params && params["tutor_mode"] == BoolVal(true)
  }

  /** The test of the course links: the given pattern, or else the semester chosen at creation. */
  function SemesterFilter(pattern: Option<string -> bool>, semester: Semester): string -> bool {
    if pattern.Some? then pattern.value else s => Matches(semester, s)
  }

  /** The records `addCourse` appends: none or one. */
  function AsSeq(c: Option<Course>): (cs: seq<Course>)
    ensures |cs| <= 1 && (cs != [] <==> c.Some?) && (c.Some? ==> cs == [c.value])
  {
    match c
    case Some(x) => [x]
    case None => []
  }

  /** `addCourses(*ids)`: one `addCourse(id)` per id, each named by the title of its page. */
  function IdCourses(refIds: seq<nat>, titleOf: nat -> string): (cs: seq<Course>)
    ensures |cs| <= |refIds|
    ensures forall k | 0 <= k < |cs| :: exists j | 0 <= j < |refIds| :: cs[k].url == CreateIliasUrl(refIds[j])
  {
    if refIds == [] then []
    else
      var first := AsSeq(CourseEntry(refIds[0], None, titleOf(refIds[0])));
      var rest := IdCourses(refIds[1..], titleOf);
      assert forall k | 0 <= k < |rest| :: exists j | 1 <= j < |refIds| :: rest[k].url == CreateIliasUrl(refIds[j]) by {
        forall k | 0 <= k < |rest| ensures exists j | 1 <= j < |refIds| :: rest[k].url == CreateIliasUrl(refIds[j]) {
          var j :| 0 <= j < |refIds[1..]| && rest[k].url == CreateIliasUrl(refIds[1..][j]);
          assert refIds[1..][j] == refIds[j + 1];
        }
      }
      first + rest
  }

  lemma {:induction false} IdCoursesConcat(a: seq<nat>, b: seq<nat>, titleOf: nat -> string)
    ensures IdCourses(a + b, titleOf) == IdCourses(a, titleOf) + IdCourses(b, titleOf)
    decreases |a|
  {
    if a == [] {
      assert a + b == b;
    } else {
      assert (a + b)[0] == a[0] && (a + b)[1..] == a[1..] + b;
      IdCoursesConcat(a[1..], b, titleOf);
    }
  }

  /** One more id appends the record its `addCourse` gives. */
  lemma IdCoursesSnoc(refIds: seq<nat>, x: nat, titleOf: nat -> string)
    ensures IdCourses(refIds + [x], titleOf) == IdCourses(refIds, titleOf) + AsSeq(CourseEntry(x, None, titleOf(x)))
  {
    IdCoursesConcat(refIds, [x], titleOf);
    assert [x][1..] == [];
  }

  /** `scanCourses`: one folder entry per course, then the search of that course. */
  function ScanAll(c: Crawl, courses: seq<Course>, fetch: string -> Page, tutor: bool, fuel: nat)
    : (r: (Crawl, Option<Fault>))
    ensures HasPrefixSeq(r.0.files, c.files)
    decreases |courses|
  {
    if courses == [] then (c, None)
    else
      var s := SearchSteps(CourseStart(c, courses[0]), courses[0].name, fetch, tutor, fuel);
      if s.1.Some? then s
      else
        var r := ScanAll(s.0, courses[1..], fetch, tutor, fuel);
        PrefixTransitive(r.0.files, s.0.files, c.files);
        r
  }

  /** The records after `before` in `after` each belong to one of `courses`. */
  predicate AddedInSomeCourse(courses: seq<Course>, before: seq<FileRecord>, after: seq<FileRecord>) {
    forall k | |before| <= k < |after| :: exists j | 0 <= j < |courses| :: InCourse(courses[j].name, after[k])
  }

  /** Every record `scanCourses` adds belongs to one of the courses it scans. */
  lemma {:induction false} ScanAllInCourses(c: Crawl, courses: seq<Course>, fetch: string -> Page, tutor: bool, fuel: nat)
    ensures AddedInSomeCourse(courses, c.files, ScanAll(c, courses, fetch, tutor, fuel).0.files)
    decreases |courses|
  {
    if courses != [] {
      var start := CourseStart(c, courses[0]);
      var s := SearchSteps(start, courses[0].name, fetch, tutor, fuel);
      SearchAdds(start, courses[0].name, fetch, tutor, fuel);
      if s.1.None? {
        ScanAllInCourses(s.0, courses[1..], fetch, tutor, fuel);
        var r := ScanAll(s.0, courses[1..], fetch, tutor, fuel).0.files;
        assert r == ScanAll(c, courses, fetch, tutor, fuel).0.files;
        forall k | |c.files| <= k < |r| ensures exists j | 0 <= j < |courses| :: InCourse(courses[j].name, r[k]) {
          if k < |s.0.files| {
            assert r[k] == r[..|s.0.files|][k];
            assert InCourse(courses[0].name, r[k]);
          } else {
            var j :| 0 <= j < |courses[1..]| && InCourse(courses[1..][j].name, r[k]);
            assert courses[1..][j] == courses[j + 1];
          }
        }
      } else {
        forall k | |c.files| <= k < |s.0.files| ensures exists j | 0 <= j < |courses| :: InCourse(courses[j].name, s.0.files[k]) {
          assert InCourse(courses[0].name, s.0.files[k]);
        }
      }
    }
  }

  /** The lists when the search of a course starts: its folder entry is queued. */
  function CourseStart(c: Crawl, course: Course): (r: Crawl)
    ensures r.files == c.files && r.placeholders == c.placeholders
    ensures r.toScan == c.toScan + [ScanEntry(Folder, course.name, course.url)]
  {
    Crawl(c.files, c.toScan + [ScanEntry(Folder, course.name, course.url)], c.placeholders)
  }

  /** The scan of the courses from `i` on: course `i` is searched, then the rest unless it raised. */
  lemma ScanAllStep(c: Crawl, courses: seq<Course>, i: nat, fetch: string -> Page, tutor: bool, fuel: nat)
    requires i < |courses|
    ensures var s := SearchSteps(CourseStart(c, courses[i]), courses[i].name, fetch, tutor, fuel);
      && (s.1.Some? ==> ScanAll(c, courses[i..], fetch, tutor, fuel).0 == s.0)
      && (s.1.Some? ==> ScanAll(c, courses[i..], fetch, tutor, fuel).1 == s.1)
      && (s.1.None? ==> ScanAll(c, courses[i..], fetch, tutor, fuel) == ScanAll(s.0, courses[i + 1..], fetch, tutor, fuel))
  {
    DropCons(courses, i);
  }

  // ---------------------------------------------------------------------------
  // The class

  class IliasDownloader {
    /** The semester `getCurrentSemester` chose when the object was made. */
    var currentSemester: Semester
    var courses: seq<Course>
    var toScan: seq<ScanEntry>
    var files: seq<FileRecord>
    var params: map<string, Value>
    var backgroundTaskFiles: seq<Placeholder>
    var backgroundTasksToClean: seq<string>

    predicate Valid()
      reads this
    {
      WellTyped(params)
    }

    /** The lists the scans change. */
    function State(): Crawl
      reads this
    {
      Crawl(files, toScan, backgroundTaskFiles)
    }

    /** `IliasDownloaderUniMA()` on a date of the given month and year, in the working directory `cwd`. */
    constructor(month: nat, year: nat, cwd: string)
      requires 1 <= month <= 12
      ensures Valid()
      ensures currentSemester == GetCurrentSemester(month, year) && params == DefaultParams(cwd)
      ensures courses == [] && toScan == [] && files == []
      ensures backgroundTaskFiles == [] && backgroundTasksToClean == []
    {
      currentSemester := GetCurrentSemester(month, year);
      courses := [];
      toScan := [];
      files := [];
      params := DefaultParams(cwd);
      backgroundTaskFiles := [];
      backgroundTasksToClean := [];
    }

    /** `setParam(param, value)`; `isDir` is the answer of `os.path.isdir(value)`. */
    method SetParam(param: string, value: Value, isDir: bool)
      requires Valid()
      modifies this
      ensures Valid()
      ensures params == SetParamResult(old(params), param, value, isDir)
      ensures currentSemester == old(currentSemester) && courses == old(courses)
      ensures files == old(files) && toScan == old(toScan) && backgroundTaskFiles == old(backgroundTaskFiles)
      ensures backgroundTasksToClean == old(backgroundTasksToClean)
    {
      SetParamWellTyped(params, param, value, isDir);
      if param in ["num_scan_threads", "num_download_threads"] {
        if value.IntVal? {
          params := params[param := value];
        }
      }
      if param == "download_path" {
        if value.StrVal? && isDir {
          params := params[param := value];
        }
      }
      if param == "verbose" {
        if value.BoolVal? {
          params := params[param := value];
        }
      }
      if param == "tutor_mode" {
        if value.BoolVal? {
          params := params[param := value];
        }
      }
    }

    /** `addCourse(refId, name)`; `pageTitle` is the course title its page shows, read when no name is given. */
    method AddCourse(refId: nat, name: Option<string>, pageTitle: string)
      modifies this
      ensures courses == old(courses) + AsSeq(CourseEntry(refId, name, pageTitle))
      ensures currentSemester == old(currentSemester) && params == old(params)
      ensures files == old(files) && toScan == old(toScan) && backgroundTaskFiles == old(backgroundTaskFiles)
      ensures backgroundTasksToClean == old(backgroundTasksToClean)
    {
      var url := CreateIliasUrl(refId);
      var raw := if name.None? || name.value == [] then pageTitle else name.value;
      var cleaned := StripBrackets(raw);
      if cleaned != [] {
        courses := courses + [Course(cleaned, url)];
      }
    }

    /** `addCourses(*refIds)`: `titleOf` gives the title of each course page. */
    method AddCourses(refIds: seq<nat>, titleOf: nat -> string)
      modifies this
      ensures courses == old(courses) + IdCourses(refIds, titleOf)
      ensures currentSemester == old(currentSemester) && params == old(params)
      ensures files == old(files) && toScan == old(toScan) && backgroundTaskFiles == old(backgroundTaskFiles)
      ensures backgroundTasksToClean == old(backgroundTasksToClean)
    {
      var i := 0;
      while i < |refIds|
        invariant 0 <= i <= |refIds|
        invariant courses == old(courses) + IdCourses(refIds[..i], titleOf)
        invariant currentSemester == old(currentSemester) && params == old(params)
        invariant files == old(files) && toScan == old(toScan) && backgroundTaskFiles == old(backgroundTaskFiles)
        invariant backgroundTasksToClean == old(backgroundTasksToClean)
      {
        AddCourse(refIds[i], None, titleOf(refIds[i]));
        IdCoursesSnoc(refIds[..i], refIds[i], titleOf);
        TakeSnoc(refIds, i);
        AppendAssoc(old(courses), IdCourses(refIds[..i], titleOf), AsSeq(CourseEntry(refIds[i], None, titleOf(refIds[i]))));
        i := i + 1;
      }
      TakeAll(refIds);
    }

    /** One link of the loop of `addAllSemesterCourses`: a selected link with a ref id that is not excluded is added. */
    method AddAnchor(selects: string -> bool, a: Anchor, excluded: seq<nat>)
      modifies this
      ensures courses == old(courses) + Contribution(selects, a, excluded)
      ensures currentSemester == old(currentSemester) && params == old(params)
      ensures files == old(files) && toScan == old(toScan) && backgroundTaskFiles == old(backgroundTaskFiles)
      ensures backgroundTasksToClean == old(backgroundTasksToClean)
    {
      AppendEmpty(courses);
      if selects(a.text) {
        match ExtractRefId(a.href)
        case Some(refId) =>
          if refId !in excluded {
            AddCourse(refId, Some(a.text), a.pageTitle);
          }
        case None =>
      }
    }

    /**
     * `addAllSemesterCourses(pattern, exclude_ids)` over the course links of
     * the start page; without a pattern, the semester chosen at creation.
     */
    method AddAllSemesterCourses(pattern: Option<string -> bool>, anchors: seq<Anchor>, excluded: seq<nat>)
      modifies this
      ensures courses == old(courses) + SemesterCourses(SemesterFilter(pattern, old(currentSemester)), anchors, excluded)
      ensures currentSemester == old(currentSemester) && params == old(params)
      ensures files == old(files) && toScan == old(toScan) && backgroundTaskFiles == old(backgroundTaskFiles)
      ensures backgroundTasksToClean == old(backgroundTasksToClean)
    {
      var selects := SemesterFilter(pattern, currentSemester);
      var i := 0;
      while i < |anchors|
        invariant 0 <= i <= |anchors|
        invariant courses == old(courses) + SemesterCourses(selects, anchors[..i], excluded)
        invariant currentSemester == old(currentSemester) && params == old(params)
        invariant files == old(files) && toScan == old(toScan) && backgroundTaskFiles == old(backgroundTaskFiles)
        invariant backgroundTasksToClean == old(backgroundTasksToClean)
      {
        AddAnchor(selects, anchors[i], excluded);
        SemesterCoursesSnoc(selects, anchors[..i], anchors[i], excluded);
        TakeSnoc(anchors, i);
        AppendAssoc(old(courses), SemesterCourses(selects, anchors[..i], excluded), Contribution(selects, anchors[i], excluded));
        i := i + 1;
      }
      TakeAll(anchors);
    }

    /** One media container of the loop of `scanMediaContainer`: the record of its video, if any. */
    method ScanFigure(course: string, path: string, fig: Figure) returns (fault: Option<Fault>)
      modifies this
      ensures files == old(files) + FigureOutcome(course, path, fig).files
      ensures fault == FigureOutcome(course, path, fig).fault
      ensures toScan == old(toScan) && backgroundTaskFiles == old(backgroundTaskFiles)
      ensures currentSemester == old(currentSemester) && courses == old(courses) && params == old(params)
      ensures backgroundTasksToClean == old(backgroundTasksToClean)
    {
      fault := None;
      AppendEmpty(files);
      match ParseVideo(fig)
      case Err(e) =>
        fault := Some(e);
      case Ok(None) =>
      case Ok(Some(v)) =>
        files := files + [FileRecord(course, v.name, v.size, Sentinel, v.url, path)];
    }

    /** `scanMediaContainer(course, path, soup)`: a record per video; an exception ends the loop. */
    method ScanMediaContainer(course: string, path: string, figs: seq<Figure>) returns (fault: Option<Fault>)
      modifies this
      ensures files == old(files) + MediaScan(course, path, figs).files
      ensures fault == MediaScan(course, path, figs).fault
      ensures toScan == old(toScan) && backgroundTaskFiles == old(backgroundTaskFiles)
      ensures currentSemester == old(currentSemester) && courses == old(courses) && params == old(params)
      ensures backgroundTasksToClean == old(backgroundTasksToClean)
    {
      fault := None;
      var i := 0;
      while i < |figs|
        invariant 0 <= i <= |figs|
        invariant MediaScan(course, path, figs[..i]).fault.None?
        invariant fault.None?
        invariant files == old(files) + MediaScan(course, path, figs[..i]).files
        invariant toScan == old(toScan) && backgroundTaskFiles == old(backgroundTaskFiles)
        invariant currentSemester == old(currentSemester) && courses == old(courses) && params == old(params)
        invariant backgroundTasksToClean == old(backgroundTasksToClean)
      {
        MediaScanSnoc(course, path, figs[..i], figs[i]);
        TakeSnoc(figs, i);
        AppendAssoc(old(files), MediaScan(course, path, figs[..i]).files, FigureOutcome(course, path, figs[i]).files);
        fault := ScanFigure(course, path, figs[i]);
        if fault.Some? {
          MediaScanRaised(course, path, figs[..i + 1], figs[i + 1..]);
          TakeDrop(figs, i + 1);
          return;
        }
        i := i + 1;
      }
      TakeAll(figs);
    }

    /** One item of the loop of `scanContainerList`: a file is recorded, a folder, task unit or learning module queued. */
    method ScanListItem(course: string, path: string, item: ListItem) returns (fault: Option<Fault>)
      modifies this
      ensures files == old(files) + ContainerItem(course, path, item).files
      ensures toScan == old(toScan) + ContainerItem(course, path, item).toScan
      ensures fault == ContainerItem(course, path, item).fault
      ensures backgroundTaskFiles == old(backgroundTaskFiles)
      ensures currentSemester == old(currentSemester) && courses == old(courses) && params == old(params)
      ensures backgroundTasksToClean == old(backgroundTasksToClean)
    {
      fault := None;
      AppendEmpty(files);
      AppendEmpty(toScan);
      if item.href.Some? {
        var url := JoinBase(item.href.value);
        var kind := DetermineItemType(url);
        if kind == File {
          match ParseFileProperties(item.slots)
          case Err(e) =>
            fault := Some(PropertyFault(e));
          case Ok(p) =>
            files := files + [FileRecord(course, item.text + p.ending, p.size, p.modDate, url, path)];
        } else if kind in {Folder, Task, Lernmaterialien} {
          toScan := toScan + [ScanEntry(kind, item.text, url)];
        }
      }
    }

    /** `scanContainerList(course, path, soup)`: files and entries to scan, in document order. */
    method ScanContainerList(course: string, path: string, items: seq<ListItem>) returns (fault: Option<Fault>)
      modifies this
      ensures files == old(files) + ContainerScan(course, path, items).files
      ensures toScan == old(toScan) + ContainerScan(course, path, items).toScan
      ensures fault == ContainerScan(course, path, items).fault
      ensures backgroundTaskFiles == old(backgroundTaskFiles)
      ensures currentSemester == old(currentSemester) && courses == old(courses) && params == old(params)
      ensures backgroundTasksToClean == old(backgroundTasksToClean)
    {
      fault := None;
      var i := 0;
      while i < |items|
        invariant 0 <= i <= |items|
        invariant ContainerScan(course, path, items[..i]).fault.None?
        invariant fault.None?
        invariant files == old(files) + ContainerScan(course, path, items[..i]).files
        invariant toScan == old(toScan) + ContainerScan(course, path, items[..i]).toScan
        invariant backgroundTaskFiles == old(backgroundTaskFiles)
        invariant currentSemester == old(currentSemester) && courses == old(courses) && params == old(params)
        invariant backgroundTasksToClean == old(backgroundTasksToClean)
      {
        ghost var done := ContainerScan(course, path, items[..i]);
        ContainerScanSnoc(course, path, items[..i], items[i]);
        TakeSnoc(items, i);
        AppendAssoc(old(files), done.files, ContainerItem(course, path, items[i]).files);
        AppendAssoc(old(toScan), done.toScan, ContainerItem(course, path, items[i]).toScan);
        fault := ScanListItem(course, path, items[i]);
        if fault.Some? {
          ContainerScanRaised(course, path, items[..i + 1], items[i + 1..]);
          TakeDrop(items, i + 1);
          return;
        }
        i := i + 1;
      }
      TakeAll(items);
    }

    /** `scanFolder(course, url)` on the page fetched for `url`. */
    method ScanFolder(course: string, page: Page) returns (fault: Option<Fault>)
      modifies this
      ensures files == old(files) + FolderScan(course, page).files
      ensures toScan == old(toScan) + FolderScan(course, page).toScan
      ensures fault == FolderScan(course, page).fault
      ensures backgroundTaskFiles == old(backgroundTaskFiles)
      ensures currentSemester == old(currentSemester) && courses == old(courses) && params == old(params)
      ensures backgroundTasksToClean == old(backgroundTasksToClean)
    {
      var path := FolderPath(course, page.breadcrumb);
      fault := ScanMediaContainer(course, path, page.figures);
      if fault.None? {
        fault := ScanContainerList(course, path, page.items);
        AppendAssoc(old(files), MediaScan(course, path, page.figures).files, ContainerScan(course, path, page.items).files);
        AppendEmpty(ContainerScan(course, path, page.items).toScan);
      } else {
        AppendEmpty(old(toScan));
      }
    }

    /** `scanTaskUnit(course, url)` on the page fetched for `url`, with the submissions of the tutor mode. */
    method ScanTaskUnit(course: string, page: Page)
      modifies this
      ensures files == old(files) + TaskFiles(course, page)
      ensures backgroundTaskFiles == old(backgroundTaskFiles) + TaskPlaceholders(course, page, TutorMode(old(params)))
      ensures toScan == old(toScan)
      ensures currentSemester == old(currentSemester) && courses == old(courses) && params == old(params)
      ensures backgroundTasksToClean == old(backgroundTasksToClean)
    {
      var path := TaskPath(course, page.taskUnitName);
      var i := 0;
      while i < |page.taskItems|
        invariant 0 <= i <= |page.taskItems|
        invariant files == old(files) + TaskFiles(course, page)[..i]
        invariant toScan == old(toScan) && backgroundTaskFiles == old(backgroundTaskFiles)
        invariant currentSemester == old(currentSemester) && courses == old(courses) && params == old(params)
        invariant backgroundTasksToClean == old(backgroundTasksToClean)
      {
        assert TaskFiles(course, page)[..i + 1] == TaskFiles(course, page)[..i] + [TaskRecord(course, path, page.taskItems[i])];
        files := files + [TaskRecord(course, path, page.taskItems[i])];
        i := i + 1;
      }
      assert TaskFiles(course, page)[..i] == TaskFiles(course, page);
      if TutorMode(params) {
        match SubmissionPlaceholder(course, path, page.submissions)
        case Some(p) =>
          backgroundTaskFiles := backgroundTaskFiles + [p];
        case None =>
      }
    }

    /** `scanHelper(course, el)`: pop the last entry, then scan `el`; `fetch` gives the page behind a URL. */
    method ScanHelper(course: string, el: ScanEntry, fetch: string -> Page) returns (fault: Option<Fault>)
      modifies this
      ensures State() == HelperStep(old(State()), course, el, fetch, TutorMode(old(params))).0
      ensures fault == HelperStep(old(State()), course, el, fetch, TutorMode(old(params))).1
      ensures currentSemester == old(currentSemester) && courses == old(courses) && params == old(params)
      ensures backgroundTasksToClean == old(backgroundTasksToClean)
    {
      fault := None;
      if |toScan| > 0 {
        toScan := toScan[..|toScan| - 1];
      }
      if el.kind == Folder {
        fault := ScanFolder(course, fetch(JoinBase(el.url)));
      }
      if el.kind == Task {
        ScanTaskUnit(course, fetch(JoinBase(el.url)));
      } else if el.kind == Lernmaterialien {
        // `scanLernmaterial` does nothing
      }
    }

    /**
     * `searchForFiles(course)`, one entry at a time, for at most `fuel`
     * steps; each step scans the entry it pops.
     */
    method SearchForFiles(course: string, fetch: string -> Page, fuel: nat) returns (fault: Option<Fault>)
      modifies this
      ensures State() == SearchSteps(old(State()), course, fetch, TutorMode(old(params)), fuel).0
      ensures fault == SearchSteps(old(State()), course, fetch, TutorMode(old(params)), fuel).1
      ensures currentSemester == old(currentSemester) && courses == old(courses) && params == old(params)
      ensures backgroundTasksToClean == old(backgroundTasksToClean)
    {
      var tutor := TutorMode(params);
      var n := fuel;
      fault := None;
      while |toScan| > 0 && n > 0
        invariant SearchSteps(State(), course, fetch, tutor, n) == SearchSteps(old(State()), course, fetch, tutor, fuel)
        invariant fault.None?
        invariant currentSemester == old(currentSemester) && courses == old(courses) && params == old(params)
        invariant backgroundTasksToClean == old(backgroundTasksToClean)
        decreases n
      {
        var el := toScan[|toScan| - 1];
        ghost var before := State();
        var f := ScanHelper(course, el, fetch);
        if f.Some? {
          fault := f;
          return;
        }
        SearchStepsStep(before, course, fetch, tutor, n);
        n := Spent(n);
      }
    }

    /** The first line of the loop of `scanCourses`: the folder entry of the course is queued. */
    method QueueCourse(course: Course)
      modifies this
      ensures State() == CourseStart(old(State()), course)
      ensures currentSemester == old(currentSemester) && courses == old(courses) && params == old(params)
      ensures backgroundTasksToClean == old(backgroundTasksToClean)
    {
      toScan := toScan + [ScanEntry(Folder, course.name, course.url)];
    }

    /** `scanCourses` without the external scrapers: every course is searched from its own folder entry. */
    method ScanCourses(fetch: string -> Page, fuel: nat) returns (fault: Option<Fault>)
      modifies this
      ensures State() == ScanAll(old(State()), old(courses), fetch, TutorMode(old(params)), fuel).0
      ensures fault == ScanAll(old(State()), old(courses), fetch, TutorMode(old(params)), fuel).1
      ensures currentSemester == old(currentSemester) && courses == old(courses) && params == old(params)
      ensures backgroundTasksToClean == old(backgroundTasksToClean)
    {
      var tutor := TutorMode(params);
      fault := None;
      var i := 0;
      while i < |courses|
        invariant 0 <= i <= |courses|
        invariant ScanAll(State(), courses[i..], fetch, tutor, fuel) == ScanAll(old(State()), old(courses), fetch, tutor, fuel)
        invariant fault.None?
        invariant currentSemester == old(currentSemester) && courses == old(courses) && params == old(params)
        invariant backgroundTasksToClean == old(backgroundTasksToClean)
      {
        ghost var before := State();
        QueueCourse(courses[i]);
        var f := SearchForFiles(courses[i].name, fetch, fuel);
        ScanAllStep(before, courses, i, fetch, tutor, fuel);
        if f.Some? {
          fault := f;
          return;
        }
        i := i + 1;
      }
    }

    /** `searchBackgroundTaskFile(elName)`: names are transliterated in place until the first match, which is removed. */
    method SearchBackgroundTaskFile(elName: string) returns (bt: Option<Placeholder>)
      modifies this
      ensures bt == Background.Search(old(backgroundTaskFiles), elName).0
      ensures backgroundTaskFiles == Background.Search(old(backgroundTaskFiles), elName).1
      ensures files == old(files) && toScan == old(toScan)
      ensures currentSemester == old(currentSemester) && courses == old(courses) && params == old(params)
      ensures backgroundTasksToClean == old(backgroundTasksToClean)
    {
      ghost var fs := backgroundTaskFiles;
      var idx := 0;
      while idx < |backgroundTaskFiles|
        invariant 0 <= idx <= |fs| && |backgroundTaskFiles| == |fs|
        invariant backgroundTaskFiles == TranslitPrefix(fs, idx)
        invariant idx <= MatchIndex(fs, elName)
        invariant files == old(files) && toScan == old(toScan)
        invariant currentSemester == old(currentSemester) && courses == old(courses) && params == old(params)
        invariant backgroundTasksToClean == old(backgroundTasksToClean)
      {
        var f := backgroundTaskFiles[idx];
        backgroundTaskFiles := backgroundTaskFiles[idx := f.(name := Translit(f.name))];
        assert backgroundTaskFiles == TranslitPrefix(fs, idx + 1);
        if backgroundTaskFiles[idx].name == elName {
          assert MatchIndex(fs, elName) == idx;
          bt := Some(backgroundTaskFiles[idx]);
          assert bt.value == Transliterated(fs[idx]);
          backgroundTaskFiles := backgroundTaskFiles[..idx] + backgroundTaskFiles[idx + 1..];
          assert backgroundTaskFiles == TranslitPrefix(fs, idx)[..idx] + fs[idx + 1..];
          return;
        }
        idx := idx + 1;
      }
      bt := None;
    }

    /** One item of the background-tasks bar: its remove URL is kept for cleanup, and its archive replaces a matching placeholder. */
    method ParseBackgroundTask(task: TaskBarItem)
      modifies this
      ensures backgroundTasksToClean == old(backgroundTasksToClean) + [task.removeUrl]
      ensures backgroundTaskFiles == MatchOne(Matching(old(backgroundTaskFiles), old(files)), task).placeholders
      ensures files == MatchOne(Matching(old(backgroundTaskFiles), old(files)), task).added
      ensures toScan == old(toScan)
      ensures currentSemester == old(currentSemester) && courses == old(courses) && params == old(params)
    {
      backgroundTasksToClean := backgroundTasksToClean + [task.removeUrl];
      var elName := ArchiveName(task.title);
      var bt := SearchBackgroundTaskFile(elName);
      if bt.Some? {
        files := files + [ArchiveRecord(task, bt.value)];
      }
    }

    /** The loop of `parseBackgroundTasks` over the items of the background-tasks bar. */
    method ParseBackgroundTasks(tasks: seq<TaskBarItem>)
      modifies this
      ensures backgroundTasksToClean == old(backgroundTasksToClean) + RemoveUrls(tasks)
      ensures backgroundTaskFiles == MatchTasks(Matching(old(backgroundTaskFiles), old(files)), tasks).placeholders
      ensures files == MatchTasks(Matching(old(backgroundTaskFiles), old(files)), tasks).added
      ensures toScan == old(toScan)
      ensures currentSemester == old(currentSemester) && courses == old(courses) && params == old(params)
    {
      var i := 0;
      while i < |tasks|
        invariant 0 <= i <= |tasks|
        invariant backgroundTasksToClean == old(backgroundTasksToClean) + RemoveUrls(tasks[..i])
        invariant MatchTasks(Matching(backgroundTaskFiles, files), tasks[i..])
          == MatchTasks(Matching(old(backgroundTaskFiles), old(files)), tasks)
        invariant toScan == old(toScan)
        invariant currentSemester == old(currentSemester) && courses == old(courses) && params == old(params)
      {
        ghost var m := Matching(backgroundTaskFiles, files);
        DropCons(tasks, i);
        TakeSnoc(tasks, i);
        RemoveUrlsSnoc(tasks[..i], tasks[i]);
        AppendAssoc(old(backgroundTasksToClean), RemoveUrls(tasks[..i]), [tasks[i].removeUrl]);
        ParseBackgroundTask(tasks[i]);
        assert Matching(backgroundTaskFiles, files) == MatchOne(m, tasks[i]);
        i := i + 1;
      }
      assert tasks[i..] == [];
    }

    /** The directory pre-pass of `downloadAllFiles`: the directory of every record is created. */
    method PrepareDirectories(fs: FileSystem) returns (r: FileSystem)
      requires Valid()
      ensures r == PrePass(fs, Directories(params["download_path"].s, files))
      ensures forall k | 0 <= k < |files| :: Exists(r, Directory(params["download_path"].s, files[k]))
    {
      var paths := Directories(params["download_path"].s, files);
      r := MakeDirs(fs, paths);
      RecordDirectoriesExist(fs, params["download_path"].s, files);
    }
  }
}
