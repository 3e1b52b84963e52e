/**
 * What the scans of `IliasDL.py` do to the crawler's lists, as functions
 * of the fetched pages: `scanFolder`, `scanTaskUnit` (with the submissions
 * placeholder of the tutor mode), one `scanHelper` step, and the worklist
 * loop of `searchForFiles` run one entry at a time.
 */
module Traversal {
  import opened Wrappers
  import opened Text
  import opened Urls
  import opened Classify
  import opened FileProperties
  import opened Listing

  /** A fetched page, as far as the scans read it. */
  datatype Page = Page(
    breadcrumb: string,         // text of the first `ol` of the body (folders)
    figures: seq<Figure>,       // the media containers (folders)
    items: seq<ListItem>,       // the container list items (folders)
    taskUnitName: string,       // text of `a.ilAccAnchor` (task units)
    taskItems: seq<TaskItem>,   // the `div.form-group` items of the first info section (task units)
    submissions: Submissions)   // the submissions part (task units, tutor mode)

  /** The lists a scan changes: `files`, `to_scan` and `background_task_files`. */
  datatype Crawl = Crawl(files: seq<FileRecord>, toScan: seq<ScanEntry>, placeholders: seq<Placeholder>)

  /** `scanFolder` on a fetched page: the media containers, then the container list, both under the folder path. */
  function FolderScan(course: string, page: Page): ScanOutcome {
    var path := FolderPath(course, page.breadcrumb);
    Then(MediaScan(course, path, page.figures), ContainerScan(course, path, page.items))
  }

  /** The records of a task unit, one per item, in order. */
  function TaskFiles(course: string, page: Page): (fs: seq<FileRecord>)
    ensures |fs| == |page.taskItems|
    ensures forall k | 0 <= k < |fs| :: fs[k] == TaskRecord(course, TaskPath(course, page.taskUnitName), page.taskItems[k])
  {
    var path := TaskPath(course, page.taskUnitName);
    seq(|page.taskItems|, k requires 0 <= k < |page.taskItems| => TaskRecord(course, path, page.taskItems[k]))
  }

  /** The placeholder a task unit queues: only in tutor mode, and only when `scanTaskUnitSubmissions` makes one. */
  function TaskPlaceholders(course: string, page: Page, tutor: bool): (ps: seq<Placeholder>)
    ensures |ps| <= 1
    ensures ps != [] <==> tutor && page.submissions.deadlinePassed && page.submissions.gradesTab
  {
    if tutor then
      match SubmissionPlaceholder(course, TaskPath(course, page.taskUnitName), page.submissions)
      case Some(p) => [p]
      case None => []
    else []
  }

  /** `to_scan.pop()` when the list is not empty. */
  function Pop(toScan: seq<ScanEntry>): (r: seq<ScanEntry>)
    ensures toScan != [] ==> r == toScan[..|toScan| - 1]
    ensures toScan == [] ==> r == []
  {
    if |toScan| > 0 then toScan[..|toScan| - 1] else toScan
  }

  /**
   * `scanHelper(course, el)`: the last entry is popped, then `el` is scanned
   * as a folder or a task unit; a learning module is not scanned. `fetch`
   * gives the page behind a URL.
   */
  function HelperStep(c: Crawl, course: string, el: ScanEntry, fetch: string -> Page, tutor: bool)
    : (r: (Crawl, Option<Fault>))
    ensures el.kind != Folder ==> r.1.None?
    ensures el.kind != Folder ==> r.0.toScan == Pop(c.toScan)
    ensures el.kind == Folder ==> r.0.placeholders == c.placeholders
    ensures HasPrefixSeq(r.0.files, c.files) && HasPrefixSeq(r.0.placeholders, c.placeholders)
  {
    var rest := Pop(c.toScan);
    var page := fetch(JoinBase(el.url));
    if el.kind == Folder then
      var o := FolderScan(course, page);
      (Crawl(c.files + o.files, rest + o.toScan, c.placeholders), o.fault)
    else if el.kind == Task then
      (Crawl(c.files + TaskFiles(course, page), rest, c.placeholders + TaskPlaceholders(course, page, tutor)), None)
    else
      (Crawl(c.files, rest, c.placeholders), None)
  }

  /** The step budget after one more step. */
  function Spent(fuel: nat): nat
    requires fuel > 0
  {
    fuel - 1
  }

  /**
   * `searchForFiles(course)` run one entry at a time: the entry scanned is
   * the one `scanHelper` pops, the last of the list. It stops when the list
   * is empty, when a scan raises, or after `fuel` steps.
   */
  function SearchSteps(c: Crawl, course: string, fetch: string -> Page, tutor: bool, fuel: nat): (r: (Crawl, Option<Fault>))
    ensures HasPrefixSeq(r.0.files, c.files) && HasPrefixSeq(r.0.placeholders, c.placeholders)
    decreases fuel
  {
    if c.toScan == [] || fuel == 0 then (c, None)
    else
      var step := HelperStep(c, course, c.toScan[|c.toScan| - 1], fetch, tutor);
      if step.1.Some? then step
      else
        var r := SearchSteps(step.0, course, fetch, tutor, Spent(fuel));
        PrefixTransitive(r.0.files, step.0.files, c.files);
        PrefixTransitive(r.0.placeholders, step.0.placeholders, c.placeholders);
        r
  }

  lemma PrefixTransitive<T>(a: seq<T>, b: seq<T>, c: seq<T>)
    requires HasPrefixSeq(a, b) && HasPrefixSeq(b, c)
    ensures HasPrefixSeq(a, c)
  {
    assert a[..|c|] == a[..|b|][..|c|];
  }

  /** One step of the search, when it raises nothing. */
  lemma SearchStepsStep(c: Crawl, course: string, fetch: string -> Page, tutor: bool, fuel: nat)
    requires c.toScan != [] && fuel > 0
    requires HelperStep(c, course, c.toScan[|c.toScan| - 1], fetch, tutor).1.None?
    ensures SearchSteps(c, course, fetch, tutor, fuel)
      == SearchSteps(HelperStep(c, course, c.toScan[|c.toScan| - 1], fetch, tutor).0, course, fetch, tutor, Spent(fuel))
  {
  }

  /** `a` begins with `b`. */
  predicate HasPrefixSeq<T(==)>(a: seq<T>, b: seq<T>) {
    |b| <= |a| && a[..|b|] == b
  }

  // ---------------------------------------------------------------------------
  // The loop as written

  /**
   * One round of the `while` loop of `searchForFiles` as written, with one
   * worker that the pool feeds the entries `round` (the list as it stood
   * when the round began), front first. Each `scanHelper` pops the LAST
   * entry of the live list but scans the entry it was fed.
   */
  function AsWrittenRound(c: Crawl, course: string, round: seq<ScanEntry>, fetch: string -> Page, tutor: bool)
    : (r: (Crawl, Option<Fault>))
    ensures HasPrefixSeq(r.0.files, c.files) && HasPrefixSeq(r.0.placeholders, c.placeholders)
    decreases |round|
  {
    if round == [] then (c, None)
    else
      var step := HelperStep(c, course, round[0], fetch, tutor);
      if step.1.Some? then step
      else
        var r := AsWrittenRound(step.0, course, round[1..], fetch, tutor);
        PrefixTransitive(r.0.files, step.0.files, c.files);
        PrefixTransitive(r.0.placeholders, step.0.placeholders, c.placeholders);
        r
  }

  /** `searchForFiles(course)` as written: rounds over the list until it is empty, at most `fuel` of them. */
  function AsWrittenSearch(c: Crawl, course: string, fetch: string -> Page, tutor: bool, fuel: nat): (r: (Crawl, Option<Fault>))
    ensures HasPrefixSeq(r.0.files, c.files) && HasPrefixSeq(r.0.placeholders, c.placeholders)
    decreases fuel
  {
    if c.toScan == [] || fuel == 0 then (c, None)
    else
      var round := AsWrittenRound(c, course, c.toScan, fetch, tutor);
      if round.1.Some? then round
      else
        var r := AsWrittenSearch(round.0, course, fetch, tutor, Spent(fuel));
        PrefixTransitive(r.0.files, round.0.files, c.files);
        PrefixTransitive(r.0.placeholders, round.0.placeholders, c.placeholders);
        r
  }

  /** A folder page whose scan raises nothing, records `fs` and queues `queued`. */
  predicate FolderGives(course: string, el: ScanEntry, fetch: string -> Page, fs: seq<FileRecord>, queued: seq<ScanEntry>) {
    el.kind == Folder && FolderScan(course, fetch(JoinBase(el.url))) == ScanOutcome(fs, queued, None)
  }

  /** One `scanHelper` call on such a folder. */
  lemma FolderStep(c: Crawl, course: string, el: ScanEntry, fetch: string -> Page, tutor: bool,
                   fs: seq<FileRecord>, queued: seq<ScanEntry>)
    requires FolderGives(course, el, fetch, fs, queued)
    ensures HelperStep(c, course, el, fetch, tutor) == (Crawl(c.files + fs, Pop(c.toScan) + queued, c.placeholders), None)
  {
  }

  /** The search that scans the entry it pops, on a last entry that is such a folder. */
  lemma SearchStepsFolder(c: Crawl, course: string, fetch: string -> Page, tutor: bool, fuel: nat,
                          fs: seq<FileRecord>, queued: seq<ScanEntry>)
    requires c.toScan != [] && fuel > 0
    requires FolderGives(course, c.toScan[|c.toScan| - 1], fetch, fs, queued)
    ensures SearchSteps(c, course, fetch, tutor, fuel)
      == SearchSteps(Crawl(c.files + fs, Pop(c.toScan) + queued, c.placeholders), course, fetch, tutor, Spent(fuel))
  {
    FolderStep(c, course, c.toScan[|c.toScan| - 1], fetch, tutor, fs, queued);
    SearchStepsStep(c, course, fetch, tutor, fuel);
  }

  /** A round as written, on a first fed entry that is such a folder. */
  lemma RoundFolder(c: Crawl, course: string, round: seq<ScanEntry>, fetch: string -> Page, tutor: bool,
                    fs: seq<FileRecord>, queued: seq<ScanEntry>)
    requires round != [] && FolderGives(course, round[0], fetch, fs, queued)
    ensures AsWrittenRound(c, course, round, fetch, tutor)
      == AsWrittenRound(Crawl(c.files + fs, Pop(c.toScan) + queued, c.placeholders), course, round[1..], fetch, tutor)
  {
    FolderStep(c, course, round[0], fetch, tutor, fs, queued);
  }

  /** The search as written, after a round that raised nothing. */
  lemma AsWrittenSearchRound(c: Crawl, course: string, fetch: string -> Page, tutor: bool, fuel: nat)
    requires c.toScan != [] && fuel > 0
    requires AsWrittenRound(c, course, c.toScan, fetch, tutor).1.None?
    ensures AsWrittenSearch(c, course, fetch, tutor, fuel)
      == AsWrittenSearch(AsWrittenRound(c, course, c.toScan, fetch, tutor).0, course, fetch, tutor, Spent(fuel))
  {
  }

  /** Round one on `[a, b]`, first call: `a` is scanned while `b` is popped. */
  lemma FirstRoundA(course: string, a: ScanEntry, b: ScanEntry, e: ScanEntry, fetch: string -> Page, tutor: bool,
                    fa: seq<FileRecord>)
    requires FolderGives(course, a, fetch, fa, [e])
    ensures AsWrittenRound(Crawl([], [a, b], []), course, [a, b], fetch, tutor)
      == AsWrittenRound(Crawl(fa, [a, e], []), course, [b], fetch, tutor)
  {
    RoundFolder(Crawl([], [a, b], []), course, [a, b], fetch, tutor, fa, [e]);
    assert [] + fa == fa && Pop([a, b]) + [e] == [a, e] && [a, b][1..] == [b];
  }

  /** Round one on `[a, b]`, second call: `b` is scanned while `a` stays. */
  lemma FirstRoundB(course: string, a: ScanEntry, b: ScanEntry, e: ScanEntry, fetch: string -> Page, tutor: bool,
                    fa: seq<FileRecord>, fb: seq<FileRecord>)
    requires FolderGives(course, b, fetch, fb, [])
    ensures AsWrittenRound(Crawl(fa, [a, e], []), course, [b], fetch, tutor) == (Crawl(fa + fb, [a], []), None)
  {
    RoundFolder(Crawl(fa, [a, e], []), course, [b], fetch, tutor, fb, []);
    assert Pop([a, e]) + [] == [a] && [b][1..] == [];
  }

  /** Round two on `[a]`: `a` is scanned again and queues `e` again. */
  lemma SecondRound(course: string, a: ScanEntry, e: ScanEntry, fetch: string -> Page, tutor: bool,
                    fa: seq<FileRecord>, done: seq<FileRecord>)
    requires FolderGives(course, a, fetch, fa, [e])
    ensures AsWrittenRound(Crawl(done, [a], []), course, [a], fetch, tutor) == (Crawl(done + fa, [e], []), None)
  {
    RoundFolder(Crawl(done, [a], []), course, [a], fetch, tutor, fa, [e]);
    assert Pop([a]) + [e] == [e] && [a][1..] == [];
  }

  /** Round three on `[e]`, which holds nothing. */
  lemma LastRound(course: string, e: ScanEntry, fetch: string -> Page, tutor: bool, done: seq<FileRecord>)
    requires FolderGives(course, e, fetch, [], [])
    ensures AsWrittenRound(Crawl(done, [e], []), course, [e], fetch, tutor) == (Crawl(done, [], []), None)
  {
    RoundFolder(Crawl(done, [e], []), course, [e], fetch, tutor, [], []);
    assert Pop([e]) + [] == [] && done + [] == done && [e][1..] == [];
  }

  /**
   * A worklist `[a, b]` of two folders, where `a` holds one subfolder `e`
   * and `b` and `e` hold no folder: as written, `a` is scanned twice, so
   * its records `fa` are stored twice.
   */
  lemma AsWrittenRescans(course: string, a: ScanEntry, b: ScanEntry, e: ScanEntry, fetch: string -> Page, tutor: bool,
                         fa: seq<FileRecord>, fb: seq<FileRecord>)
    requires FolderGives(course, a, fetch, fa, [e])
    requires FolderGives(course, b, fetch, fb, [])
    requires FolderGives(course, e, fetch, [], [])
    ensures AsWrittenSearch(Crawl([], [a, b], []), course, fetch, tutor, 3) == (Crawl(fa + fb + fa, [], []), None)
  {
    FirstRoundA(course, a, b, e, fetch, tutor, fa);
    FirstRoundB(course, a, b, e, fetch, tutor, fa, fb);
    AsWrittenSearchRound(Crawl([], [a, b], []), course, fetch, tutor, 3);
    SecondRound(course, a, e, fetch, tutor, fa, fa + fb);
    AsWrittenSearchRound(Crawl(fa + fb, [a], []), course, fetch, tutor, 2);
    LastRound(course, e, fetch, tutor, fa + fb + fa);
    AsWrittenSearchRound(Crawl(fa + fb + fa, [e], []), course, fetch, tutor, 1);
  }

  /** The search that scans the entry it pops, on `[a, b]`: `b` first. */
  lemma OnceStepB(course: string, a: ScanEntry, b: ScanEntry, fetch: string -> Page, tutor: bool, fb: seq<FileRecord>)
    requires FolderGives(course, b, fetch, fb, [])
    ensures SearchSteps(Crawl([], [a, b], []), course, fetch, tutor, 3) == SearchSteps(Crawl(fb, [a], []), course, fetch, tutor, 2)
  {
    SearchStepsFolder(Crawl([], [a, b], []), course, fetch, tutor, 3, fb, []);
    assert [] + fb == fb && Pop([a, b]) + [] == [a];
  }

  /** Then `a`, which queues `e`. */
  lemma OnceStepA(course: string, a: ScanEntry, e: ScanEntry, fetch: string -> Page, tutor: bool,
                  fa: seq<FileRecord>, done: seq<FileRecord>)
    requires FolderGives(course, a, fetch, fa, [e])
    ensures SearchSteps(Crawl(done, [a], []), course, fetch, tutor, 2) == SearchSteps(Crawl(done + fa, [e], []), course, fetch, tutor, 1)
  {
    SearchStepsFolder(Crawl(done, [a], []), course, fetch, tutor, 2, fa, [e]);
    assert Pop([a]) + [e] == [e];
  }

  /** Then `e`, which holds nothing. */
  lemma OnceStepE(course: string, e: ScanEntry, fetch: string -> Page, tutor: bool, done: seq<FileRecord>)
    requires FolderGives(course, e, fetch, [], [])
    ensures SearchSteps(Crawl(done, [e], []), course, fetch, tutor, 1) == (Crawl(done, [], []), None)
  {
    SearchStepsFolder(Crawl(done, [e], []), course, fetch, tutor, 1, [], []);
    assert Pop([e]) + [] == [] && done + [] == done;
  }

  /** On the same worklist the search that scans the entry it pops stores every folder's records once. */
  lemma SearchStepsScansOnce(course: string, a: ScanEntry, b: ScanEntry, e: ScanEntry, fetch: string -> Page, tutor: bool,
                             fa: seq<FileRecord>, fb: seq<FileRecord>)
    requires FolderGives(course, a, fetch, fa, [e])
    requires FolderGives(course, b, fetch, fb, [])
    requires FolderGives(course, e, fetch, [], [])
    ensures SearchSteps(Crawl([], [a, b], []), course, fetch, tutor, 3) == (Crawl(fb + fa, [], []), None)
  {
    OnceStepB(course, a, b, fetch, tutor, fb);
    OnceStepA(course, a, e, fetch, tutor, fa, fb);
    OnceStepE(course, e, fetch, tutor, fb + fa);
  }

  // ---------------------------------------------------------------------------
  // Every record stays inside its course

  /** A record of `course`: it names the course, and its path lies in the course's directory. */
  predicate InCourse(course: string, f: FileRecord) {
    f.course == course && HasPrefix(f.path, Subst(course, ':', " - ") + "/")
  }

  predicate AllInCourse(course: string, fs: seq<FileRecord>) {
    forall k | 0 <= k < |fs| :: InCourse(course, fs[k])
  }

  lemma FolderPathInCourse(course: string, breadcrumb: string)
    ensures HasPrefix(FolderPath(course, breadcrumb), Subst(course, ':', " - ") + "/")
  {
    FolderPathShape(course, breadcrumb);
    var mid :| FolderPath(course, breadcrumb) == Subst(course, ':', " - ") + "/" + mid + "/";
    var pre := Subst(course, ':', " - ") + "/";
    assert FolderPath(course, breadcrumb) == pre + (mid + "/");
  }

  lemma TaskPathInCourse(course: string, unitName: string)
    ensures HasPrefix(TaskPath(course, unitName), Subst(course, ':', " - ") + "/")
  {
    TaskPathShape(course, unitName);
    var pre := Subst(course, ':', " - ") + "/";
    assert TaskPath(course, unitName) == pre + ("Aufgaben/" + Subst(unitName, ':', " - ") + "/");
  }

  /** The records a folder page contributes belong to the course. */
  lemma FolderScanInCourse(course: string, page: Page)
    ensures AllInCourse(course, FolderScan(course, page).files)
  {
    FolderPathInCourse(course, page.breadcrumb);
  }

  /** One step adds only records of the course. */
  lemma HelperStepInCourse(c: Crawl, course: string, el: ScanEntry, fetch: string -> Page, tutor: bool)
    requires AllInCourse(course, c.files)
    ensures AllInCourse(course, HelperStep(c, course, el, fetch, tutor).0.files)
  {
    var page := fetch(JoinBase(el.url));
    if el.kind == Folder {
      FolderScanInCourse(course, page);
    } else if el.kind == Task {
      TaskPathInCourse(course, page.taskUnitName);
    }
  }

  /** `searchForFiles(course)` adds only records of that course, whatever the pages hold. */
  lemma {:induction false} SearchInCourse(c: Crawl, course: string, fetch: string -> Page, tutor: bool, fuel: nat)
    requires AllInCourse(course, c.files)
    ensures AllInCourse(course, SearchSteps(c, course, fetch, tutor, fuel).0.files)
    decreases fuel
  {
    if c.toScan != [] && fuel != 0 {
      var el := c.toScan[|c.toScan| - 1];
      HelperStepInCourse(c, course, el, fetch, tutor);
      SearchInCourse(HelperStep(c, course, el, fetch, tutor).0, course, fetch, tutor, Spent(fuel));
    }
  }

  /** The records after `before` in `after` belong to `course`. */
  predicate AddedInCourse(course: string, before: seq<FileRecord>, after: seq<FileRecord>) {
    forall k | |before| <= k < |after| :: InCourse(course, after[k])
  }

  /** One step appends only records of the course, whatever the records before it. */
  lemma HelperStepAdds(c: Crawl, course: string, el: ScanEntry, fetch: string -> Page, tutor: bool)
    ensures AddedInCourse(course, c.files, HelperStep(c, course, el, fetch, tutor).0.files)
  {
    var page := fetch(JoinBase(el.url));
    if el.kind == Folder {
      FolderScanInCourse(course, page);
    } else if el.kind == Task {
      TaskPathInCourse(course, page.taskUnitName);
    }
  }

  lemma AddedTransitive(course: string, a: seq<FileRecord>, b: seq<FileRecord>, c: seq<FileRecord>)
    requires HasPrefixSeq(b, a) && HasPrefixSeq(c, b)
    requires AddedInCourse(course, a, b) && AddedInCourse(course, b, c)
    ensures AddedInCourse(course, a, c)
  {
    forall k | |a| <= k < |c| ensures InCourse(course, c[k]) {
      if k < |b| {
        assert c[k] == c[..|b|][k];
      }
    }
  }

  /** `searchForFiles(course)` appends only records of that course, whatever was recorded before. */
  lemma {:induction false} SearchAdds(c: Crawl, course: string, fetch: string -> Page, tutor: bool, fuel: nat)
    ensures AddedInCourse(course, c.files, SearchSteps(c, course, fetch, tutor, fuel).0.files)
    decreases fuel
  {
    if c.toScan != [] && fuel != 0 {
      var el := c.toScan[|c.toScan| - 1];
      var step := HelperStep(c, course, el, fetch, tutor);
      HelperStepAdds(c, course, el, fetch, tutor);
      if step.1.None? {
        SearchAdds(step.0, course, fetch, tutor, Spent(fuel));
        AddedTransitive(course, c.files, step.0.files, SearchSteps(step.0, course, fetch, tutor, Spent(fuel)).0.files);
      }
    }
  }

  // ---------------------------------------------------------------------------
  // Progress

  /** Entries that queue nothing: task units and learning modules. */
  predicate NoFolders(toScan: seq<ScanEntry>) {
    forall k | 0 <= k < |toScan| :: toScan[k].kind != Folder
  }

  /** A list without folders is worked off in as many steps as it has entries, and nothing raises. */
  lemma {:induction false} SearchWithoutFolders(c: Crawl, course: string, fetch: string -> Page, tutor: bool, fuel: nat)
    requires NoFolders(c.toScan) && fuel >= |c.toScan|
    ensures SearchSteps(c, course, fetch, tutor, fuel).0.toScan == []
    ensures SearchSteps(c, course, fetch, tutor, fuel).1.None?
    decreases fuel
  {
    if c.toScan != [] {
      var el := c.toScan[|c.toScan| - 1];
      var next := HelperStep(c, course, el, fetch, tutor).0;
      assert next.toScan == c.toScan[..|c.toScan| - 1];
      SearchWithoutFolders(next, course, fetch, tutor, Spent(fuel));
    }
  }

  /** A folder page whose list holds only files and links queues nothing: the step just pops its entry. */
  lemma LeafFolderPops(c: Crawl, course: string, el: ScanEntry, fetch: string -> Page, tutor: bool)
    requires el.kind == Folder
    requires FolderScan(course, fetch(JoinBase(el.url))).fault.None?
    requires forall k | 0 <= k < |fetch(JoinBase(el.url)).items| :: !IsScanItem(fetch(JoinBase(el.url)).items[k])
    ensures HelperStep(c, course, el, fetch, tutor).0.toScan == Pop(c.toScan)
  {
    var page := fetch(JoinBase(el.url));
    var path := FolderPath(course, page.breadcrumb);
    ContainerScanComplete(course, path, page.items);
    NoScanEntries(page.items);
  }

  lemma {:induction false} NoScanEntries(items: seq<ListItem>)
    requires forall k | 0 <= k < |items| :: !IsScanItem(items[k])
    ensures ScanEntries(items) == []
    decreases |items|
  {
    if items != [] {
      NoScanEntries(items[1..]);
    }
  }
}
