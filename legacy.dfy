/**
 * The older version of the class (`__init__.py`): its parameters, course
 * list, `_parseFileProperties` without the slot filter, the folder path
 * made of the characters of one breadcrumb line, and `scanFolder`, which
 * sorts the items of a page into three lists.
 */
module Legacy {
  import opened Wrappers
  import opened Text
  import opened Numbers
  import opened Urls
  import opened Classify
  import FileProperties
  import opened Courses
  import opened Listing
  import opened Seqs
  import opened LegacyDates
  import Traversal
  import Downloader

  // ---------------------------------------------------------------------------
  // Parameters

  /** The dictionary `__init__` sets up: ten threads each, the working directory. */
  function LegacyDefaultParams(cwd: string): map<string, Downloader.Value> {
    map["num_scan_threads" := Downloader.IntVal(10), "num_download_threads" := Downloader.IntVal(10),
        "download_path" := Downloader.StrVal(cwd)]
  }

  /** The thread counts hold exact `int`s and a download path is set. */
  predicate LegacyWellTyped(params: map<string, Downloader.Value>) {
    && "num_scan_threads" in params && params["num_scan_threads"].IntVal?
    && "num_download_threads" in params && params["num_download_threads"].IntVal?
    && "download_path" in params
  }

  /**
   * The test of the older `setParam`: a thread count takes an exact `int`,
   * the download path whatever `os.path.isdir` accepts (`isDir`); every
   * other key is ignored.
   */
  predicate LegacyAccepts(param: string, value: Downloader.Value, isDir: bool) {
    || (param in ["num_scan_threads", "num_download_threads"] && value.IntVal?)
    || (param == "download_path" && isDir)
  }

  /** The dictionary after the older `setParam(param, value)`. */
  function LegacySetParamResult(params: map<string, Downloader.Value>, param: string, value: Downloader.Value, isDir: bool)
    : (r: map<string, Downloader.Value>)
    ensures LegacyAccepts(param, value, isDir) ==> param in r && r[param] == value
    ensures forall k | k != param :: (k in r <==> k in params) && (k in r ==> r[k] == params[k])
    ensures !LegacyAccepts(param, value, isDir) ==> r == params
  {
    if LegacyAccepts(param, value, isDir) then params[param := value] else params
  }

  /** The older `setParam` keeps the keys and the types of the thread counts. */
  lemma LegacySetParamWellTyped(params: map<string, Downloader.Value>, param: string, value: Downloader.Value, isDir: bool)
    requires LegacyWellTyped(params)
    ensures LegacyWellTyped(LegacySetParamResult(params, param, value, isDir))
    ensures LegacySetParamResult(params, param, value, isDir).Keys == params.Keys
  {
    if LegacyAccepts(param, value, isDir) {
      assert param in params by {
        assert param in ["num_scan_threads", "num_download_threads"] || param == "download_path";
      }
    }
  }

  /** `verbose` and `tutor_mode`, which the newer class takes, change nothing here. */
  lemma LegacyIgnoresFlags(params: map<string, Downloader.Value>, param: string, value: Downloader.Value, isDir: bool)
    requires param in ["verbose", "tutor_mode"]
    ensures LegacySetParamResult(params, param, value, isDir) == params
    ensures value.BoolVal? ==> Downloader.Accepts(param, value, isDir)
  {
  }

  // ---------------------------------------------------------------------------
  // Courses

  /** The record the older `addCourse` appends: the breadcrumb title without bracket groups, even when empty. */
  function LegacyCourse(refId: nat, title: string): (c: Course)
    ensures c.url == CreateIliasUrl(refId) && |c.name| <= |title|
  {
    Course(StripBrackets(title), CreateIliasUrl(refId))
  }

  /** The records of `addCourses(*refIds)`: one per id, in order. */
  function LegacyCourses(refIds: seq<nat>, titleOf: nat -> string): (cs: seq<Course>)
    ensures |cs| == |refIds|
    ensures forall k | 0 <= k < |cs| :: cs[k] == LegacyCourse(refIds[k], titleOf(refIds[k]))
  {
    seq(|refIds|, k requires 0 <= k < |refIds| => LegacyCourse(refIds[k], titleOf(refIds[k])))
  }

  /** Every stored course URL gives back its ref id and is scanned as a folder. */
  lemma LegacyCoursesAreFolders(refIds: seq<nat>, titleOf: nat -> string, k: nat)
    requires k < |refIds|
    ensures ExtractRefId(LegacyCourses(refIds, titleOf)[k].url) == Some(refIds[k])
    ensures LegacyDetermineItemType(LegacyCourses(refIds, titleOf)[k].url) == Folder
  {
    ExtractRefIdOfCreateIliasUrl(refIds[k]);
    CourseUrlIsFolder(refIds[k]);
    LegacyAgrees(CreateIliasUrl(refIds[k]));
  }

  // ---------------------------------------------------------------------------
  // _parseFileProperties

  /** The exception the older `_parseFileProperties` raises. */
  datatype LegacyError =
    | NoFirstSlot   // `p[0]` on an empty list
    | NoEndingWord  // `split()[0]` of a blank first slot
    | NoSizeSlot    // `p[1]` on a list of one
    | NoSizeToken   // `file_size_tmp[0]` on an empty list
    | BadSize       // `float(file_size_tmp[0])` raises
    | NoUnit        // `file_size_tmp[1]` on a list of one token
    | DateRaises    // `translate_date` on the first of a month: `replace(day = 0)`

  /** The triple `(file_ending, file_size, file_mod_date)`; the ending has no dot. */
  datatype LegacyProperties = LegacyProperties(ending: string, size: real, modDate: FileProperties.ModDate)

  /** `p[1].replace(",", ".").split()`: `,` is the decimal point, nothing is lowered. */
  function LegacySizeTokens(slot: string): seq<string> {
    Split(Replace(slot, ",", "."))
  }

  /** `file_size = file_size * 1e-3` exactly when the unit is `KB`; any other unit is kept. */
  function LegacyScale(v: real, unit: string): (r: real)
    ensures v >= 0.0 ==> 0.0 <= r <= v
    ensures unit != "KB" ==> r == v
  {
    if unit == "KB" then v * 0.001 else v
  }

  /** `float(s[0])` of the size tokens, scaled by the unit. */
  function LegacyParseSize(slot: string): Result<real, LegacyError> {
    var tokens := LegacySizeTokens(slot);
    if tokens == [] then Err(NoSizeToken)
    else match ParseFloat(tokens[0])
      case None => Err(BadSize)
      case Some(v) => if |tokens| < 2 then Err(NoUnit) else Ok(LegacyScale(v, tokens[1]))
  }

  /**
   * The older `_parseFileProperties` on the texts of all property spans (no
   * filter), on the day `now`: the first word of the first span, the size
   * from the second, the date from the last, translated by `translate_date`
   * as written, which raises on the first of every month.
   */
  function LegacyParseFileProperties(slots: seq<string>, now: Date): (r: Result<LegacyProperties, LegacyError>)
    requires ValidDate(now)
    ensures r == Err(NoFirstSlot) <==> slots == []
    ensures r == Err(NoEndingWord) <==> slots != [] && Split(slots[0]) == []
    ensures r == Err(DateRaises) <==> |slots| >= 2 && Split(slots[0]) != [] && LegacyParseSize(slots[1]).Ok? && now.day == 1
    ensures r.Ok? ==> |slots| >= 2 && LegacyParseSize(slots[1]) == Ok(r.value.size)
    ensures r.Ok? ==> r.value.ending == Split(slots[0])[0] && r.value.ending != [] && NoSpace(r.value.ending)
    ensures r.Ok? ==> r.value.modDate.Parsed? && AsWrittenTranslated(slots[|slots| - 1], now) == Some(r.value.modDate.text)
  {
    if slots == [] then Err(NoFirstSlot)
    else if Split(slots[0]) == [] then Err(NoEndingWord)
    else if |slots| < 2 then Err(NoSizeSlot)
    else match LegacyParseSize(slots[1])
      case Err(e) => Err(e)
      case Ok(v) =>
        match AsWrittenTranslated(slots[|slots| - 1], now)
        case None => Err(DateRaises)
        case Some(date) => Ok(LegacyProperties(Split(slots[0])[0], v, FileProperties.Parsed(date)))
  }

  /** `"i,f unit"` becomes the tokens `i.f` and the unit as written. */
  lemma LegacySizeTokensDecimal(w1: string, i: string, f: string, unit: string, w2: string)
    requires AllSpace(w1) && AllSpace(w2)
    requires AllDigits(i) && AllDigits(f) && |i| + |f| > 0
    requires unit != [] && NoSpace(unit) && Lacks(unit, ',')
    ensures LegacySizeTokens(w1 + i + "," + f + " " + unit + w2) == [i + "." + f, unit]
  {
    var number := i + "," + f;
    FileProperties.DecimalNumber(i, f);
    FileProperties.CommaPieces(w1, number, unit, w2);
    assert w1 + i + "," + f + " " + unit + w2 == w1 + number + " " + unit + w2;
    SplitPadded2(w1, i + "." + f, " ", unit, w2);
  }

  /** `"i,f unit"` reads as the decimal `i.f`, scaled by 0.001 exactly when the unit is `KB`. */
  lemma LegacySizeDecimal(w1: string, i: string, f: string, unit: string, w2: string)
    requires AllSpace(w1) && AllSpace(w2)
    requires AllDigits(i) && AllDigits(f) && |i| + |f| > 0
    requires unit != [] && NoSpace(unit) && Lacks(unit, ',')
    ensures LegacyParseSize(w1 + i + "," + f + " " + unit + w2) == Ok(LegacyScale(DecimalValue(i, f), unit))
  {
    LegacySizeTokensDecimal(w1, i, f, unit, w2);
    ParseFloatOfDecimal(i, f);
    LegacyParseSizeOfTokens(w1 + i + "," + f + " " + unit + w2, i + "." + f, unit, DecimalValue(i, f));
  }

  lemma LegacyParseSizeOfTokens(slot: string, x: string, u: string, v: real)
    requires LegacySizeTokens(slot) == [x, u] && ParseFloat(x) == Some(v)
    ensures LegacyParseSize(slot) == Ok(LegacyScale(v, u))
  {
    var tokens := LegacySizeTokens(slot);
    assert tokens != [] && tokens[0] == x && |tokens| == 2 && tokens[1] == u;
  }

  /** The unit test is case-sensitive: `kb`, which the newer version scales, is kept as it stands. */
  lemma LegacyLowerKbUnscaled(w1: string, i: string, f: string, w2: string, kb: string)
    requires kb == "kb"
    requires AllSpace(w1) && AllSpace(w2)
    requires AllDigits(i) && AllDigits(f) && |i| + |f| > 0
    ensures LegacyParseSize(w1 + i + "," + f + " " + kb + w2) == Ok(DecimalValue(i, f))
    ensures FileProperties.ToMegabytes(DecimalValue(i, f), kb) == DecimalValue(i, f) * 0.001
  {
    assert NoSpace(kb) && Lacks(kb, ',') && kb != "KB";
    LegacySizeDecimal(w1, i, f, kb, w2);
    assert LegacyScale(DecimalValue(i, f), kb) == DecimalValue(i, f);
  }

  /**
   * Where every span passes the newer filter and the first holds one word,
   * both versions read the same extension, the newer one with its dot.
   */
  lemma LegacyEndingAgrees(slots: seq<string>, now: Date)
    requires ValidDate(now)
    requires FileProperties.KeptSlots(slots) == slots && slots != [] && |Split(slots[0])| == 1
    requires FileProperties.ParseFileProperties(slots).Ok? && LegacyParseFileProperties(slots, now).Ok?
    ensures FileProperties.ParseFileProperties(slots).value.ending == "." + LegacyParseFileProperties(slots, now).value.ending
  {
  }

  // ---------------------------------------------------------------------------
  // The folder path

  /** `"/".join(x)` over a string: its characters, `/` between them. */
  function Spread(x: string): (r: string)
    ensures |r| == if x == [] then 0 else 2 * |x| - 1
    ensures forall k | 0 <= k < |r| :: r[k] == if k % 2 == 0 then x[k / 2] else '/'
    decreases |x|
  {
    if |x| <= 1 then x
    else
      var r := [x[0], '/'] + Spread(x[1..]);
      assert forall k | 2 <= k < |r| :: r[k] == Spread(x[1..])[k - 2];
      r
  }

  /** The characters of a string, each as a string of its own. */
  function Chars(x: string): (cs: seq<string>)
    ensures |cs| == |x| && forall k | 0 <= k < |x| :: cs[k] == [x[k]]
  {
    seq(|x|, k requires 0 <= k < |x| => [x[k]])
  }

  /** Python's `join` over the characters is the spread of the string. */
  lemma {:induction false} JoinCharsIsSpread(x: string)
    ensures Join("/", Chars(x)) == Spread(x)
    decreases |x|
  {
    if |x| > 1 {
      JoinCharsIsSpread(x[1..]);
      CharsTail(x);
      SlashCons(x[0], Spread(x[1..]));
    } else if |x| == 1 {
      assert x == [x[0]] && Chars(x) == [x];
    }
  }

  lemma CharsTail(x: string)
    requires |x| > 1
    ensures Join("/", Chars(x)) == [x[0]] + "/" + Join("/", Chars(x[1..]))
  {
    var cs := Chars(x);
    assert cs[1..] == Chars(x[1..]);
    assert |cs| > 1 && cs[0] == [x[0]];
  }

  lemma SlashCons(c: char, s: string)
    ensures [c] + "/" + s == [c, '/'] + s
  {
  }

  /**
   * The path of the older `scanFolder`: the course, `/`, the characters of
   * the last but one breadcrumb line joined by `/`, and `/`; `None` where
   * `[-2]` raises because the breadcrumb has a single line.
   */
  function LegacyFolderPath(course: string, breadcrumb: string): (r: Option<string>)
    ensures r.None? <==> |SplitOn(breadcrumb, '\n')| < 2
  {
    var lines := SplitOn(breadcrumb, '\n');
    if |lines| < 2 then None else Some(course + "/" + Join("/", Chars(lines[|lines| - 2])) + "/")
  }

  /** The path spreads the characters of the line: `ab` gives `course/a/b/`. */
  lemma LegacyFolderPathSpread(course: string, breadcrumb: string)
    requires |SplitOn(breadcrumb, '\n')| >= 2
    ensures LegacyFolderPath(course, breadcrumb)
      == Some(course + "/" + Spread(SplitOn(breadcrumb, '\n')[|SplitOn(breadcrumb, '\n')| - 2]) + "/")
  {
    var lines := SplitOn(breadcrumb, '\n');
    JoinCharsIsSpread(lines[|lines| - 2]);
  }

  lemma SpreadExample(ab: string)
    requires ab == "ab"
    ensures Spread(ab) == "a/b"
  {
    assert Spread(ab[1..]) == "b";
  }

  /** A breadcrumb of one line makes `scanFolder` raise. */
  lemma OneLineBreadcrumb(course: string, breadcrumb: string)
    requires Lacks(breadcrumb, '\n')
    ensures LegacyFolderPath(course, breadcrumb).None?
  {
    IndexOfAbsent(breadcrumb, '\n');
  }

  // ---------------------------------------------------------------------------
  // scanFolder

  /** An entry of the older `files`; the size is always a number. */
  datatype LegacyFile = LegacyFile(
    course: string, name: string, size: real, modDate: FileProperties.ModDate, url: string, path: string)

  /** An exception that ends the older `scanFolder`. */
  datatype LegacyFault =
    | ShortBreadcrumb               // `split("\n")[-2]` on one line
    | NoLink                        // `subitem['href']` on `None`: the item has no link
    | BadProperties(error: LegacyError)

  /** What the older scan appends to `files`, `folders_to_scan` and `tasks_to_scan`, and how it stopped. */
  datatype LegacyOutcome = LegacyOutcome(
    files: seq<LegacyFile>, folders: seq<ScanEntry>, tasks: seq<ScanEntry>, fault: Option<LegacyFault>)

  const Quiet := LegacyOutcome([], [], [], None)

  /** Running `a` and then `b`: an exception in `a` stops the scan with what `a` appended. */
  function LegacyThen(a: LegacyOutcome, b: LegacyOutcome): (o: LegacyOutcome)
    ensures a.fault.Some? ==> o == a
    ensures a.fault.None? ==>
      o.files == a.files + b.files && o.folders == a.folders + b.folders && o.tasks == a.tasks + b.tasks && o.fault == b.fault
  {
    if a.fault.Some? then a else LegacyOutcome(a.files + b.files, a.folders + b.folders, a.tasks + b.tasks, b.fault)
  }

  lemma LegacyThenAssociative(a: LegacyOutcome, b: LegacyOutcome, c: LegacyOutcome)
    ensures LegacyThen(LegacyThen(a, b), c) == LegacyThen(a, LegacyThen(b, c))
  {
  }

  /** An item whose link the older classifier gives `kind`. */
  predicate LegacyKind(item: ListItem, kind: ItemKind) {
    item.href.Some? && LegacyDetermineItemType(item.href.value) == kind
  }

  /** A linked item of kind `kind` whose properties, when it is a file, read as `props`. */
  function LegacyEntry(course: string, path: string, text: string, url: string, kind: ItemKind,
                       props: Result<LegacyProperties, LegacyError>): (o: LegacyOutcome)
    ensures o.fault.Some? <==> kind == File && props.Err?
    ensures o.files == if kind == File && props.Ok? then
      [LegacyFile(course, text + "." + props.value.ending, props.value.size, props.value.modDate, url, path)] else []
    ensures o.folders == if kind == Folder then [ScanEntry(Folder, text, url)] else []
    ensures o.tasks == if kind == Task then [ScanEntry(Task, text, url)] else []
  {
    if kind == File then
      match props
      case Err(e) => LegacyOutcome([], [], [], Some(BadProperties(e)))
      case Ok(p) => LegacyOutcome([LegacyFile(course, text + "." + p.ending, p.size, p.modDate, url, path)], [], [], None)
    else if kind == Folder then LegacyOutcome([], [ScanEntry(Folder, text, url)], [], None)
    else if kind == Task then LegacyOutcome([], [], [ScanEntry(Task, text, url)], None)
    else Quiet
  }

  /** One item of the loop of the older `scanFolder`; its link is used as it stands, without `urljoin`. */
  function LegacyItem(course: string, path: string, item: ListItem, now: Date): (o: LegacyOutcome)
    requires ValidDate(now)
    ensures |o.files| + |o.folders| + |o.tasks| <= 1
    ensures o.fault.Some? <==> item.href.None? || (LegacyKind(item, File) && LegacyParseFileProperties(item.slots, now).Err?)
    ensures o.files != [] <==> LegacyKind(item, File) && LegacyParseFileProperties(item.slots, now).Ok?
    ensures o.folders != [] <==> LegacyKind(item, Folder)
    ensures o.tasks != [] <==> LegacyKind(item, Task)
    ensures LegacyKind(item, Folder) ==> o.folders == [ScanEntry(Folder, item.text, item.href.value)]
    ensures LegacyKind(item, Task) ==> o.tasks == [ScanEntry(Task, item.text, item.href.value)]
  {
    match item.href
    case None => LegacyOutcome([], [], [], Some(NoLink))
    case Some(url) => LegacyEntry(course, path, item.text, url, LegacyDetermineItemType(url), LegacyParseFileProperties(item.slots, now))
  }

  /** The loop of the older `scanFolder` over the container list items. */
  function LegacyScan(course: string, path: string, items: seq<ListItem>, now: Date): (o: LegacyOutcome)
    requires ValidDate(now)
    ensures |o.files| + |o.folders| + |o.tasks| <= |items|
  {
    if items == [] then Quiet
    else LegacyThen(LegacyItem(course, path, items[0], now), LegacyScan(course, path, items[1..], now))
  }

  /** Every record carries the course and the folder path; the queues hold folders and task units only. */
  predicate Shaped(o: LegacyOutcome, course: string, path: string) {
    && (forall k | 0 <= k < |o.files| :: o.files[k].course == course && o.files[k].path == path)
    && (forall k | 0 <= k < |o.folders| :: o.folders[k].kind == Folder)
    && (forall k | 0 <= k < |o.tasks| :: o.tasks[k].kind == Task)
  }

  lemma ThenShaped(a: LegacyOutcome, b: LegacyOutcome, course: string, path: string)
    requires Shaped(a, course, path) && Shaped(b, course, path)
    ensures Shaped(LegacyThen(a, b), course, path)
  {
  }

  lemma ItemShaped(course: string, path: string, item: ListItem, now: Date)
    requires ValidDate(now)
    ensures Shaped(LegacyItem(course, path, item, now), course, path)
  {
    if item.href.Some? {
      var url := item.href.value;
      EntryShaped(course, path, item.text, url, LegacyDetermineItemType(url), LegacyParseFileProperties(item.slots, now));
    }
  }

  lemma EntryShaped(course: string, path: string, text: string, url: string, kind: ItemKind,
                    props: Result<LegacyProperties, LegacyError>)
    ensures Shaped(LegacyEntry(course, path, text, url, kind, props), course, path)
  {
  }

  /** The whole scan keeps that shape. */
  lemma {:induction false} LegacyScanShape(course: string, path: string, items: seq<ListItem>, now: Date)
    requires ValidDate(now)
    ensures Shaped(LegacyScan(course, path, items, now), course, path)
    decreases |items|
  {
    if items != [] {
      ItemShaped(course, path, items[0], now);
      LegacyScanShape(course, path, items[1..], now);
      ThenShaped(LegacyItem(course, path, items[0], now), LegacyScan(course, path, items[1..], now), course, path);
    }
  }

  /** The older `scanFolder(course, url)` on the fetched page, after the pop. */
  function LegacyFolderScan(course: string, breadcrumb: string, items: seq<ListItem>, now: Date): (o: LegacyOutcome)
    requires ValidDate(now)
  {
    match LegacyFolderPath(course, breadcrumb)
    case None => LegacyOutcome([], [], [], Some(ShortBreadcrumb))
    case Some(path) => LegacyScan(course, path, items, now)
  }

  /** The entries of the items the older classifier gives `kind`, in order. */
  function KindEntries(items: seq<ListItem>, kind: ItemKind): seq<ScanEntry> {
    if items == [] then []
    else
      var head := if LegacyKind(items[0], kind) then [ScanEntry(kind, items[0].text, items[0].href.value)] else [];
      head + KindEntries(items[1..], kind)
  }

  function LegacyFileCount(items: seq<ListItem>): nat {
    if items == [] then 0 else (if LegacyKind(items[0], File) then 1 else 0) + LegacyFileCount(items[1..])
  }

  /**
   * A scan that raises nothing queues exactly the folder items as folders
   * and the task items as task units, in document order, and records one
   * file per file item; links and forums are dropped.
   */
  lemma {:induction false} LegacyScanComplete(course: string, path: string, items: seq<ListItem>, now: Date)
    requires ValidDate(now)
    requires LegacyScan(course, path, items, now).fault.None?
    ensures LegacyScan(course, path, items, now).folders == KindEntries(items, Folder)
    ensures LegacyScan(course, path, items, now).tasks == KindEntries(items, Task)
    ensures |LegacyScan(course, path, items, now).files| == LegacyFileCount(items)
    decreases |items|
  {
    if items != [] {
      var first := LegacyItem(course, path, items[0], now);
      assert first.fault.None?;
      LegacyScanComplete(course, path, items[1..], now);
    }
  }

  lemma {:induction false} LegacyScanConcat(course: string, path: string, a: seq<ListItem>, b: seq<ListItem>, now: Date)
    requires ValidDate(now)
    ensures LegacyScan(course, path, a + b, now) == LegacyThen(LegacyScan(course, path, a, now), LegacyScan(course, path, b, now))
    decreases |a|
  {
    if a == [] {
      AppendEmpty(b);
    } else {
      ConsConcat(a, b);
      LegacyScanConcat(course, path, a[1..], b, now);
      LegacyThenAssociative(LegacyItem(course, path, a[0], now), LegacyScan(course, path, a[1..], now), LegacyScan(course, path, b, now));
    }
  }

  lemma LegacyScanOne(course: string, path: string, item: ListItem, now: Date)
    requires ValidDate(now)
    ensures LegacyScan(course, path, [item], now) == LegacyItem(course, path, item, now)
  {
    var one := LegacyItem(course, path, item, now);
    assert [item][1..] == [];
    assert LegacyScan(course, path, [item], now) == LegacyThen(one, Quiet);
    AppendEmpty(one.files);
    AppendEmpty(one.folders);
    AppendEmpty(one.tasks);
  }

  /** One more item after a prefix that raised nothing appends what that item gives. */
  lemma LegacyScanSnoc(course: string, path: string, a: seq<ListItem>, item: ListItem, now: Date)
    requires ValidDate(now)
    requires LegacyScan(course, path, a, now).fault.None?
    ensures LegacyScan(course, path, a + [item], now).files == LegacyScan(course, path, a, now).files + LegacyItem(course, path, item, now).files
    ensures LegacyScan(course, path, a + [item], now).folders == LegacyScan(course, path, a, now).folders + LegacyItem(course, path, item, now).folders
    ensures LegacyScan(course, path, a + [item], now).tasks == LegacyScan(course, path, a, now).tasks + LegacyItem(course, path, item, now).tasks
    ensures LegacyScan(course, path, a + [item], now).fault == LegacyItem(course, path, item, now).fault
  {
    LegacyScanConcat(course, path, a, [item], now);
    LegacyScanOne(course, path, item, now);
  }

  /** Once a prefix has raised, the items after it are not looked at. */
  lemma LegacyScanRaised(course: string, path: string, a: seq<ListItem>, b: seq<ListItem>, now: Date)
    requires ValidDate(now)
    requires LegacyScan(course, path, a, now).fault.Some?
    ensures LegacyScan(course, path, a + b, now) == LegacyScan(course, path, a, now)
  {
    LegacyScanConcat(course, path, a, b, now);
  }

  /** On the first of a month a file item never gives a record: it raises. */
  lemma LegacyFileItemFirstOfMonth(course: string, path: string, item: ListItem, now: Date)
    requires ValidDate(now) && now.day == 1 && LegacyKind(item, File)
    ensures LegacyItem(course, path, item, now).fault.Some?
    ensures LegacyItem(course, path, item, now).files == []
  {
  }

  /**
   * On the first of a month the older scan records no file at all: the
   * first file item ends it.
   */
  lemma {:induction false} LegacyScanFirstOfMonth(course: string, path: string, items: seq<ListItem>, now: Date)
    requires ValidDate(now) && now.day == 1
    ensures LegacyScan(course, path, items, now).files == []
    decreases |items|
  {
    if items != [] {
      var first := LegacyItem(course, path, items[0], now);
      if LegacyKind(items[0], File) {
        LegacyFileItemFirstOfMonth(course, path, items[0], now);
      } else {
        assert first.files == [];
        LegacyScanFirstOfMonth(course, path, items[1..], now);
      }
    }
  }

  // ---------------------------------------------------------------------------
  // The class

  class LegacyDownloader {
    var courses: seq<Course>
    var foldersToScan: seq<ScanEntry>
    var tasksToScan: seq<ScanEntry>
    var files: seq<LegacyFile>
    var params: map<string, Downloader.Value>

    predicate Valid()
      reads this
    {
      LegacyWellTyped(params)
    }

    /** `IliasDownloaderUniMA()` in the working directory `cwd`. */
    constructor(cwd: string)
      ensures Valid() && params == LegacyDefaultParams(cwd)
      ensures courses == [] && foldersToScan == [] && tasksToScan == [] && files == []
    {
      courses := [];
      foldersToScan := [];
      tasksToScan := [];
      files := [];
      params := LegacyDefaultParams(cwd);
    }

    /** `setParam(param, value)`; `isDir` is the answer of `os.path.isdir(value)`. */
    method SetParam(param: string, value: Downloader.Value, isDir: bool)
      requires Valid()
      modifies this
      ensures Valid()
      ensures params == LegacySetParamResult(old(params), param, value, isDir)
      ensures courses == old(courses) && files == old(files)
      ensures foldersToScan == old(foldersToScan) && tasksToScan == old(tasksToScan)
    {
      LegacySetParamWellTyped(params, param, value, isDir);
      if param in ["num_scan_threads", "num_download_threads"] {
        if value.IntVal? {
          params := params[param := value];
        }
      } else if param == "download_path" {
        if isDir {
          params := params[param := value];
        }
      }
    }

    /** `addCourse(iliasid)`; `title` is the third breadcrumb entry of the course page. */
    method AddCourse(refId: nat, title: string)
      modifies this
      ensures courses == old(courses) + [LegacyCourse(refId, title)]
      ensures params == old(params) && files == old(files)
      ensures foldersToScan == old(foldersToScan) && tasksToScan == old(tasksToScan)
    {
      var url := CreateIliasUrl(refId);
      var name := StripBrackets(title);
      courses := courses + [Course(name, url)];
    }

    /** `addCourses(*iliasids)`: `titleOf` gives the title on each course page. */
    method AddCourses(refIds: seq<nat>, titleOf: nat -> string)
      modifies this
      ensures courses == old(courses) + LegacyCourses(refIds, titleOf)
      ensures params == old(params) && files == old(files)
      ensures foldersToScan == old(foldersToScan) && tasksToScan == old(tasksToScan)
    {
      var i := 0;
      while i < |refIds|
        invariant 0 <= i <= |refIds|
        invariant courses == old(courses) + LegacyCourses(refIds, titleOf)[..i]
        invariant params == old(params) && files == old(files)
        invariant foldersToScan == old(foldersToScan) && tasksToScan == old(tasksToScan)
      {
        AddCourse(refIds[i], titleOf(refIds[i]));
        TakeSnoc(LegacyCourses(refIds, titleOf), i);
        AppendAssoc(old(courses), LegacyCourses(refIds, titleOf)[..i], [LegacyCourse(refIds[i], titleOf(refIds[i]))]);
        i := i + 1;
      }
      TakeAll(LegacyCourses(refIds, titleOf));
    }

    /** One item of the loop of the older `scanFolder`. */
    method ScanItem(course: string, path: string, item: ListItem, now: Date) returns (fault: Option<LegacyFault>)
      requires ValidDate(now)
      modifies this
      ensures files == old(files) + LegacyItem(course, path, item, now).files
      ensures foldersToScan == old(foldersToScan) + LegacyItem(course, path, item, now).folders
      ensures tasksToScan == old(tasksToScan) + LegacyItem(course, path, item, now).tasks
      ensures fault == LegacyItem(course, path, item, now).fault
      ensures courses == old(courses) && params == old(params)
    {
      if item.href.None? {
        fault := Some(NoLink);
        AppendEmpty(files);
        AppendEmpty(foldersToScan);
        AppendEmpty(tasksToScan);
        return;
      }
      var url := item.href.value;
      fault := QueueEntry(course, path, item.text, url, LegacyDetermineItemType(url), LegacyParseFileProperties(item.slots, now));
    }

    /** The branches of the loop body for a linked item; `props` is only read when the item is a file. */
    method QueueEntry(course: string, path: string, text: string, url: string, kind: ItemKind,
                      props: Result<LegacyProperties, LegacyError>) returns (fault: Option<LegacyFault>)
      modifies this
      ensures files == old(files) + LegacyEntry(course, path, text, url, kind, props).files
      ensures foldersToScan == old(foldersToScan) + LegacyEntry(course, path, text, url, kind, props).folders
      ensures tasksToScan == old(tasksToScan) + LegacyEntry(course, path, text, url, kind, props).tasks
      ensures fault == LegacyEntry(course, path, text, url, kind, props).fault
      ensures courses == old(courses) && params == old(params)
    {
      fault := None;
      AppendEmpty(files);
      AppendEmpty(foldersToScan);
      AppendEmpty(tasksToScan);
      if kind == File {
        match props
        case Err(e) =>
          fault := Some(BadProperties(e));
        case Ok(p) =>
          files := files + [LegacyFile(course, text + "." + p.ending, p.size, p.modDate, url, path)];
      } else if kind == Folder {
        foldersToScan := foldersToScan + [ScanEntry(Folder, text, url)];
      } else if kind == Task {
        tasksToScan := tasksToScan + [ScanEntry(Task, text, url)];
      }
    }

    /** The loop of the older `scanFolder` over the items of the page. */
    method ScanItems(course: string, path: string, items: seq<ListItem>, now: Date) returns (fault: Option<LegacyFault>)
      requires ValidDate(now)
      modifies this
      ensures files == old(files) + LegacyScan(course, path, items, now).files
      ensures foldersToScan == old(foldersToScan) + LegacyScan(course, path, items, now).folders
      ensures tasksToScan == old(tasksToScan) + LegacyScan(course, path, items, now).tasks
      ensures fault == LegacyScan(course, path, items, now).fault
      ensures courses == old(courses) && params == old(params)
    {
      fault := None;
      var i := 0;
      while i < |items|
        invariant 0 <= i <= |items|
        invariant LegacyScan(course, path, items[..i], now).fault.None?
        invariant fault.None?
        invariant files == old(files) + LegacyScan(course, path, items[..i], now).files
        invariant foldersToScan == old(foldersToScan) + LegacyScan(course, path, items[..i], now).folders
        invariant tasksToScan == old(tasksToScan) + LegacyScan(course, path, items[..i], now).tasks
        invariant courses == old(courses) && params == old(params)
      {
        ghost var done := LegacyScan(course, path, items[..i], now);
        ghost var one := LegacyItem(course, path, items[i], now);
        LegacyScanSnoc(course, path, items[..i], items[i], now);
        TakeSnoc(items, i);
        AppendAssoc(old(files), done.files, one.files);
        AppendAssoc(old(foldersToScan), done.folders, one.folders);
        AppendAssoc(old(tasksToScan), done.tasks, one.tasks);
        fault := ScanItem(course, path, items[i], now);
        if fault.Some? {
          LegacyScanRaised(course, path, items[..i + 1], items[i + 1..], now);
          TakeDrop(items, i + 1);
          return;
        }
        i := i + 1;
      }
      TakeAll(items);
    }

    /**
     * The older `scanFolder(course_name, url)` on the page fetched for the
     * URL, on the day `now`: the last folder entry is popped first.
     */
    method ScanFolder(course: string, breadcrumb: string, items: seq<ListItem>, now: Date) returns (fault: Option<LegacyFault>)
      requires ValidDate(now)
      modifies this
      ensures files == old(files) + LegacyFolderScan(course, breadcrumb, items, now).files
      ensures foldersToScan == Traversal.Pop(old(foldersToScan)) + LegacyFolderScan(course, breadcrumb, items, now).folders
      ensures tasksToScan == old(tasksToScan) + LegacyFolderScan(course, breadcrumb, items, now).tasks
      ensures fault == LegacyFolderScan(course, breadcrumb, items, now).fault
      ensures courses == old(courses) && params == old(params)
    {
      if |foldersToScan| > 0 {
        foldersToScan := foldersToScan[..|foldersToScan| - 1];
      }
      match LegacyFolderPath(course, breadcrumb)
      case None =>
        fault := Some(ShortBreadcrumb);
        AppendEmpty(files);
        AppendEmpty(foldersToScan);
        AppendEmpty(tasksToScan);
      case Some(path) =>
        fault := ScanItems(course, path, items, now);
    }

    /** The older `scanTaskUnit`: it pops the last task entry and records nothing. */
    method ScanTaskUnit()
      modifies this
      ensures tasksToScan == Traversal.Pop(old(tasksToScan))
      ensures files == old(files) && foldersToScan == old(foldersToScan)
      ensures courses == old(courses) && params == old(params)
    {
      if |tasksToScan| > 0 {
        tasksToScan := tasksToScan[..|tasksToScan| - 1];
      }
    }
  }
}
