/**
 * What one scanned page contributes: the videos of its media containers
 * (`parseVideos`, `scanMediaContainer`), the items of its container list
 * (`scanContainerList`), the paths built by `scanFolder` and
 * `scanTaskUnit`, the records of a task unit, and the placeholder that
 * `scanTaskUnitSubmissions` queues for a submissions archive.
 */
module Listing {
  import opened Wrappers
  import opened Text
  import opened Numbers
  import opened Urls
  import opened Classify
  import opened FileProperties
  import opened Seqs

  /** An entry of `files`: a file to download. */
  datatype FileRecord = FileRecord(
    course: string, name: string, size: Option<real>, modDate: ModDate, url: string, path: string)

  /** An entry of `to_scan`: a folder, task unit or learning module still to visit. */
  datatype ScanEntry = ScanEntry(kind: ItemKind, name: string, url: string)

  /** A `div.il_ContainerListItem`: the `href` and text of its first link, and the texts of its property spans. */
  datatype ListItem = ListItem(href: Option<string>, text: string, slots: seq<string>)

  /**
   * The `<source src>` of a `video.ilPageVideo`, and the `Content-Length`
   * the HEAD request for it answers (`None` when the request or the header
   * fails).
   */
  datatype VideoSource = VideoSource(src: string, contentLength: Option<real>)

  /** A media container: `None` when it holds no `video.ilPageVideo`. */
  datatype Figure = Figure(video: Option<VideoSource>)

  /** The tuple `(v_name, v_size, v_mod_date, v_url)`; the date is always 2000-01-01. */
  datatype VideoInfo = VideoInfo(name: string, size: Option<real>, url: string)

  /** An exception that ends a scan. */
  datatype Fault =
    | PropertyFault(error: PropError)  // raised by `_parseFileProperties`
    | EmptySource                      // `v_name` is unbound when `src` is empty
    | NameMismatch                     // `re.search(...)` is `None`, so `.group(1)` fails

  /** What a scan appends to `files` and `to_scan`, and the exception that stopped it, if any. */
  datatype ScanOutcome = ScanOutcome(files: seq<FileRecord>, toScan: seq<ScanEntry>, fault: Option<Fault>)

  const Nothing := ScanOutcome([], [], None)

  /** Running `a` and then `b`: an exception in `a` stops the scan with what `a` appended. */
  function Then(a: ScanOutcome, b: ScanOutcome): (o: ScanOutcome)
    ensures a.fault.Some? ==> o == a
    ensures a.fault.None? ==> o.files == a.files + b.files && o.toScan == a.toScan + b.toScan && o.fault == b.fault
  {
    if a.fault.Some? then a else ScanOutcome(a.files + b.files, a.toScan + b.toScan, b.fault)
  }

  lemma ThenAssociative(a: ScanOutcome, b: ScanOutcome, c: ScanOutcome)
    ensures Then(Then(a, b), c) == Then(a, Then(b, c))
  {
  }

  // ---------------------------------------------------------------------------
  // parseVideos: `re.search(r"mobs/mm_\d+/(.*)\?il_wac_token.*", v_src).group(1)`

  const Token: string := "?il_wac_token"

  /** `mobs/mm_`, at least one digit and `/` at `p`: the index right after the `/`. */
  function MobsEnd(s: string, p: nat): (g: Option<nat>)
    ensures g.Some? ==> p + 10 <= g.value <= |s| && OccursAt(s, "mobs/mm_", p) && s[g.value - 1] == '/'
  {
    if p + 8 <= |s| && s[p..p + 8] == "mobs/mm_" then
      var n := DigitRun(s[p + 8..]);
      if n > 0 && p + 8 + n < |s| && s[p + 8 + n] == '/' then Some(p + 9 + n) else None
    else None
  }

  /**
   * The leftmost match starting at `p` or later: the first start where the
   * prefix fits and a `?il_wac_token` follows on the same line; the group
   * runs up to the last such occurrence (`.*` is greedy and stops at line
   * breaks).
   */
  function VideoNameFrom(s: string, p: nat): (r: Option<string>)
    ensures r.Some? ==> Lacks(r.value, '\n') && Contains(s, r.value + Token)
    decreases |s| - p
  {
    if p >= |s| then None
    else match MobsEnd(s, p)
      case Some(g) =>
        (match LastInLine(s, g, Token, |s| - |Token|)
        case Some(k) =>
          assert s[g..k + |Token|] == s[g..k] + Token;
          assert OccursAt(s, s[g..k] + Token, g);
          Some(s[g..k])
        case None => VideoNameFrom(s, p + 1))
      case None => VideoNameFrom(s, p + 1)
  }

  /** Group 1 of the video-name pattern in `src`, or `None` when the pattern does not match. */
  function VideoName(src: string): (r: Option<string>)
    ensures r.Some? ==> Lacks(r.value, '\n') && Contains(src, r.value + Token)
  {
    VideoNameFrom(src, 0)
  }

  /** Starts inside a prefix without `m` cannot match. */
  lemma {:induction false} VideoNameSkip(s: string, p: nat, q: nat)
    requires p <= q <= |s| && Lacks(s[p..q], 'm')
    ensures VideoNameFrom(s, p) == VideoNameFrom(s, q)
    decreases q - p
  {
    if p < q {
      assert s[p] == s[p..q][0];
      assert MobsEnd(s, p) == None by {
        if p + 8 <= |s| { assert s[p..p + 8][0] == s[p] != 'm'; }
      }
      assert s[p + 1..q] == s[p..q][1..];
      VideoNameSkip(s, p + 1, q);
    }
  }

  /** The shape of a portal video source: the name between `mm_<digits>/` and the token. */
  lemma VideoNameOf(pre: string, d: string, name: string, rest: string)
    requires Lacks(pre, 'm') && d != [] && AllDigits(d)
    requires Lacks(name, '\n') && Lacks(rest, '?')
    ensures VideoName(pre + "mobs/mm_" + d + "/" + (name + Token + rest)) == Some(name)
  {
    VideoPrefixSkipped(pre, d, name + Token + rest);
    VideoFoundAt(pre, d, name, rest);
  }

  /** The search started at the `mobs/mm_` after the prefix finds the name. */
  lemma VideoFoundAt(pre: string, d: string, name: string, rest: string)
    requires d != [] && AllDigits(d)
    requires Lacks(name, '\n') && Lacks(rest, '?')
    ensures VideoNameFrom(pre + "mobs/mm_" + d + "/" + (name + Token + rest), |pre|) == Some(name)
  {
    VideoMobsAt(pre, d, name + Token + rest);
    VideoGroupStart(pre, d, name, rest);
    VideoFoundAfter(pre + "mobs/mm_" + d + "/" + (name + Token + rest), |pre|, GroupStart(pre, d), name, rest);
  }

  /** Where the group of a portal video source begins: after the prefix, `mobs/mm_`, the digits and `/`. */
  function GroupStart(pre: string, d: string): nat {
    |pre| + 9 + |d|
  }

  /** A prefix match at `p` followed by the name, the token and a rest without `?` gives the name. */
  lemma VideoFoundAfter(s: string, p: nat, g: nat, name: string, rest: string)
    requires p < |s| && MobsEnd(s, p) == Some(g)
    requires g <= |s| && s[g..] == name + Token + rest
    requires Lacks(name, '\n') && Lacks(rest, '?')
    ensures VideoNameFrom(s, p) == Some(name)
  {
    var t := name + Token + rest;
    assert g + |name| <= |s| by {
      assert |t| == |s| - g;
    }
    assert s[g..g + |name|] == name by {
      assert s[g..g + |name|] == s[g..][..|name|] == t[..|name|];
    }
    var j := |s| - |Token|;
    TokenMark(Token);
    VideoTokenLast(s, g, name, rest, Token, j);
    VideoNameBefore(s, p, g, name, j);
  }

  lemma VideoNameBefore(s: string, p: nat, g: nat, name: string, j: int)
    requires p < |s| && MobsEnd(s, p) == Some(g)
    requires g + |name| <= |s| && s[g..g + |name|] == name
    requires j == |s| - |Token| && LastInLine(s, g, Token, j) == Some(g + |name|)
    ensures VideoNameFrom(s, p) == Some(name)
  {
    VideoNameAt(s, p, g, name);
  }

  lemma VideoGroupStart(pre: string, d: string, name: string, rest: string)
    ensures |pre| < GroupStart(pre, d) <= |pre + "mobs/mm_" + d + "/" + (name + Token + rest)|
    ensures (pre + "mobs/mm_" + d + "/" + (name + Token + rest))[GroupStart(pre, d)..] == name + Token + rest
  {
  }

  /** A match found at `p`: the group is the text between the prefix and the last token. */
  lemma VideoNameAt(s: string, p: nat, g: nat, name: string)
    requires p < |s| && MobsEnd(s, p) == Some(g)
    requires g + |name| <= |s| && s[g..g + |name|] == name
    requires LastInLine(s, g, Token, |s| - |Token|) == Some(g + |name|)
    ensures VideoNameFrom(s, p) == Some(name)
  {
  }

  lemma VideoPrefixSkipped(pre: string, d: string, t: string)
    requires Lacks(pre, 'm')
    ensures VideoNameFrom(pre + "mobs/mm_" + d + "/" + t, 0) == VideoNameFrom(pre + "mobs/mm_" + d + "/" + t, |pre|)
  {
    var s := pre + "mobs/mm_" + d + "/" + t;
    assert s[0..|pre|] == pre;
    VideoNameSkip(s, 0, |pre|);
  }

  lemma VideoMobsAt(pre: string, d: string, t: string)
    requires d != [] && AllDigits(d)
    ensures MobsEnd(pre + "mobs/mm_" + d + "/" + t, |pre|) == Some(GroupStart(pre, d))
  {
    var s := pre + "mobs/mm_" + d + "/" + t;
    var p := |pre|;
    assert s[p..p + 8] == "mobs/mm_";
    assert s[p + 8..] == d + ("/" + t);
    DigitRunOf(d, "/" + t);
    assert s[p + 8 + |d|] == '/';
  }

  /** The token starts with the only `?` it holds. */
  lemma TokenMark(tok: string)
    requires tok == Token
    ensures tok != [] && tok[0] == '?' && Lacks(tok[1..], '?')
  {
  }

  /** After the name, the only `?` is the one that starts the token. */
  lemma NoMarkAfter(name: string, tok: string, rest: string)
    requires tok != [] && Lacks(tok[1..], '?') && Lacks(rest, '?')
    ensures forall j | |name| < j < |name + tok + rest| :: (name + tok + rest)[j] != '?'
  {
    var t := name + tok + rest;
    forall j | |name| < j < |t| ensures t[j] != '?' {
      if j < |name| + |tok| {
        assert t[j] == tok[j - |name|] == tok[1..][j - |name| - 1];
      } else {
        assert t[j] == rest[j - |name| - |tok|];
      }
    }
  }

  /** A token that starts with its only `?`, right after the name, is the last one on the line ending at `j`. */
  lemma VideoTokenLast(s: string, g: nat, name: string, rest: string, tok: string, j: int)
    requires tok != [] && tok[0] == '?' && Lacks(tok[1..], '?')
    requires g <= |s| && s[g..] == name + tok + rest && j == |s| - |tok|
    requires Lacks(name, '\n') && Lacks(rest, '?')
    ensures LastInLine(s, g, tok, j) == Some(g + |name|)
  {
    TokenAfterName(s, g, name, tok, rest);
    NoTokenLater(s, g, name, tok, rest);
    LastInLineIs(s, g, tok, j, g + |name|);
  }

  /** The token right after the name is on the line of the group. */
  lemma TokenAfterName(s: string, g: nat, name: string, tok: string, rest: string)
    requires g <= |s| && s[g..] == name + tok + rest
    requires Lacks(name, '\n')
    ensures g + |name| <= |s| - |tok| && LineMatchAt(s, g, tok, g + |name|)
  {
    var k := g + |name|;
    var t := name + tok + rest;
    assert s[k..k + |tok|] == t[|name|..|name| + |tok|];
    assert t[|name|..|name| + |tok|] == tok;
    assert s[g..k] == t[..|name|] == name;
  }

  /** After the name, no other token follows. */
  lemma NoTokenLater(s: string, g: nat, name: string, tok: string, rest: string)
    requires g <= |s| && s[g..] == name + tok + rest
    requires tok != [] && tok[0] == '?' && Lacks(tok[1..], '?') && Lacks(rest, '?')
    ensures forall m: nat | g + |name| < m <= |s| - |tok| :: !OccursAt(s, tok, m)
  {
    var t := name + tok + rest;
    NoMarkAfter(name, tok, rest);
    forall m: nat | g + |name| < m <= |s| - |tok|
      ensures !OccursAt(s, tok, m)
    {
      assert s[m] == t[m - g] != '?';
      assert s[m..m + |tok|][0] == s[m];
    }
  }

  /** `parseVideos(mc)`: no video gives `None`; an empty source or a source the pattern misses raises. */
  function ParseVideo(fig: Figure): (r: Result<Option<VideoInfo>, Fault>)
    ensures r == Ok(None) <==> fig.video.None?
    ensures r == Err(EmptySource) <==> fig.video.Some? && fig.video.value.src == []
    ensures r.Ok? && r.value.Some? ==>
      fig.video.Some? && VideoName(fig.video.value.src) == Some(r.value.value.name)
      && r.value.value.url == JoinBase(fig.video.value.src) && IsAbsolute(r.value.value.url)
  {
    match fig.video
    case None => Ok(None)
    case Some(v) =>
      if v.src == [] then Err(EmptySource)
      else match VideoName(v.src)
        case None => Err(NameMismatch)
        case Some(name) =>
          var size := match v.contentLength case Some(n) => Some(n * 0.000001) case None => None;
          Ok(Some(VideoInfo(name, size, JoinBase(v.src))))
  }

  /** One media container: the record of its video, nothing, or the exception `parseVideos` raises. */
  function FigureOutcome(course: string, path: string, fig: Figure): (o: ScanOutcome)
    ensures o.toScan == [] && |o.files| <= 1
    ensures o.fault.Some? <==> ParseVideo(fig).Err?
    ensures o.files != [] <==> ParseVideo(fig).Ok? && ParseVideo(fig).value.Some?
  {
    match ParseVideo(fig)
    case Err(e) => ScanOutcome([], [], Some(e))
    case Ok(None) => Nothing
    case Ok(Some(v)) => ScanOutcome([FileRecord(course, v.name, v.size, Sentinel, v.url, path)], [], None)
  }

  /** `scanMediaContainer`: one record per video, in order, stopping at the first exception. */
  function MediaScan(course: string, path: string, figs: seq<Figure>): (o: ScanOutcome)
    ensures o.toScan == [] && |o.files| <= |figs|
    ensures forall k | 0 <= k < |o.files| ::
      o.files[k].course == course && o.files[k].path == path && o.files[k].modDate == Sentinel
  {
    if figs == [] then Nothing
    else Then(FigureOutcome(course, path, figs[0]), MediaScan(course, path, figs[1..]))
  }

  /** Media containers without a video add nothing. */
  lemma {:induction false} MediaScanNoVideos(course: string, path: string, figs: seq<Figure>)
    requires forall k | 0 <= k < |figs| :: figs[k].video.None?
    ensures MediaScan(course, path, figs) == Nothing
    decreases |figs|
  {
    if figs != [] {
      MediaScanNoVideos(course, path, figs[1..]);
    }
  }

  /** Scanning `a + b` is scanning `a`, then `b` unless `a` raised. */
  lemma {:induction false} MediaScanConcat(course: string, path: string, a: seq<Figure>, b: seq<Figure>)
    ensures MediaScan(course, path, a + b) == Then(MediaScan(course, path, a), MediaScan(course, path, b))
    decreases |a|
  {
    if a == [] {
      assert a + b == b;
    } else {
      assert (a + b)[0] == a[0] && (a + b)[1..] == a[1..] + b;
      MediaScanConcat(course, path, a[1..], b);
      ThenAssociative(FigureOutcome(course, path, a[0]), MediaScan(course, path, a[1..]), MediaScan(course, path, b));
    }
  }

  /** One more container after a prefix that raised nothing appends what that container gives. */
  lemma MediaScanSnoc(course: string, path: string, a: seq<Figure>, f: Figure)
    requires MediaScan(course, path, a).fault.None?
    ensures MediaScan(course, path, a + [f]).files == MediaScan(course, path, a).files + FigureOutcome(course, path, f).files
    ensures MediaScan(course, path, a + [f]).fault == FigureOutcome(course, path, f).fault
  {
    MediaScanConcat(course, path, a, [f]);
    assert MediaScan(course, path, [f]) == Then(FigureOutcome(course, path, f), Nothing);
  }

  /** Once a prefix has raised, the containers after it are not looked at. */
  lemma MediaScanRaised(course: string, path: string, a: seq<Figure>, b: seq<Figure>)
    requires MediaScan(course, path, a).fault.Some?
    ensures MediaScan(course, path, a + b).files == MediaScan(course, path, a).files
    ensures MediaScan(course, path, a + b).fault == MediaScan(course, path, a).fault
  {
    MediaScanConcat(course, path, a, b);
  }

  /** A source `./x` + `mobs/mm_<digits>/<name>?il_wac_token<rest>` gives the name and the URL below the root. */
  lemma RelativeVideo(pre: string, x: string, d: string, name: string, rest: string, n: Option<real>)
    requires pre == "./" + x && Lacks(pre, 'm') && d != [] && AllDigits(d)
    requires Lacks(name, '\n') && Lacks(rest, '?')
    ensures ParseVideo(Figure(Some(VideoSource(pre + ("mobs/mm_" + d + "/" + (name + Token + rest)), n))))
      == Ok(Some(VideoInfo(name, if n.Some? then Some(n.value * 0.000001) else None,
                           BaseUrl + x + ("mobs/mm_" + d + "/" + (name + Token + rest)))))
  {
    VideoNameOfSource(pre + ("mobs/mm_" + d + "/" + (name + Token + rest)), pre, d, name, rest);
    RelativeVideoOf(pre, x, "mobs/mm_" + d + "/" + (name + Token + rest), name, n);
  }

  /** A source `./x` + `t` whose name matches is joined below the root. */
  lemma RelativeVideoOf(pre: string, x: string, t: string, name: string, n: Option<real>)
    requires pre == "./" + x && VideoName(pre + t) == Some(name)
    ensures ParseVideo(Figure(Some(VideoSource(pre + t, n))))
      == Ok(Some(VideoInfo(name, if n.Some? then Some(n.value * 0.000001) else None, BaseUrl + x + t)))
  {
    RelativeSource(pre, x, t);
    ParseVideoAt(VideoSource(pre + t, n), name, BaseUrl + x + t);
  }

  /** A source the pattern matches gives its name and its joined URL. */
  lemma ParseVideoAt(v: VideoSource, name: string, url: string)
    requires v.src != [] && VideoName(v.src) == Some(name) && JoinBase(v.src) == url
    ensures ParseVideo(Figure(Some(v)))
      == Ok(Some(VideoInfo(name, if v.contentLength.Some? then Some(v.contentLength.value * 0.000001) else None, url)))
  {
  }

  lemma SourceShape(src: string, pre: string, d: string, name: string, rest: string)
    requires src == pre + ("mobs/mm_" + d + "/" + (name + Token + rest))
    ensures src == pre + "mobs/mm_" + d + "/" + (name + Token + rest)
  {
  }

  lemma VideoNameOfSource(src: string, pre: string, d: string, name: string, rest: string)
    requires src == pre + ("mobs/mm_" + d + "/" + (name + Token + rest))
    requires Lacks(pre, 'm') && d != [] && AllDigits(d)
    requires Lacks(name, '\n') && Lacks(rest, '?')
    ensures VideoName(src) == Some(name)
  {
    SourceShape(src, pre, d, name, rest);
    VideoNameOf(pre, d, name, rest);
  }

  /** The literal parts of the captioned example lack the characters the pattern stops at. */
  lemma CaptionedParts()
    ensures Lacks("./" + "data/ILIAS/", 'm') && AllDigits("1318784")
    ensures Lacks("Session_02_DesignofFlowLinesPart1.mp4", '\n')
    ensures Lacks("=88ff75878db690a37e5fddfddcf055beea79693a" + "&il_wac_ttl=3&il_wac_ts=1603624381", '?')
  {
    assert Lacks("=88ff75878db690a37e5fddfddcf055beea79693a", '?');
    assert Lacks("&il_wac_ttl=3&il_wac_ts=1603624381", '?');
    LacksConcat("=88ff75878db690a37e5fddfddcf055beea79693a", "&il_wac_ttl=3&il_wac_ts=1603624381", '?');
  }

  /** The literal parts of the example without caption lack the characters the pattern stops at. */
  lemma PlainParts()
    ensures Lacks("./" + "data/ILIAS/", 'm') && AllDigits("1299655")
    ensures Lacks("HS20_EinfPoWi_Politische_Kultur_" + "und_Sozialisation_A_komprimiert.m4v", '\n')
  {
    assert Lacks("HS20_EinfPoWi_Politische_Kultur_", '\n');
    assert Lacks("und_Sozialisation_A_komprimiert.m4v", '\n');
    LacksConcat("HS20_EinfPoWi_Politische_Kultur_", "und_Sozialisation_A_komprimiert.m4v", '\n');
  }

  lemma PlainRest()
    ensures Lacks("=60e9a0575393b725438513fc1d2aadfba054221a" + "&il_wac_ttl=3&il_wac_ts=1603624667", '?')
  {
    assert Lacks("=60e9a0575393b725438513fc1d2aadfba054221a", '?');
    assert Lacks("&il_wac_ttl=3&il_wac_ts=1603624667", '?');
    LacksConcat("=60e9a0575393b725438513fc1d2aadfba054221a", "&il_wac_ttl=3&il_wac_ts=1603624667", '?');
  }

  /** tests/test_parseVideo.py:17 and 91-96: the video with a caption. */
  lemma VideoWithCaptionExample(pre: string, d: string, name: string, rest: string, n: Option<real>)
    requires pre == "./" + "data/ILIAS/" && d == "1318784" && name == "Session_02_DesignofFlowLinesPart1.mp4"
    requires rest == "=88ff75878db690a37e5fddfddcf055beea79693a" + "&il_wac_ttl=3&il_wac_ts=1603624381"
    ensures ParseVideo(Figure(Some(VideoSource(pre + ("mobs/mm_" + d + "/" + (name + Token + rest)), n))))
      == Ok(Some(VideoInfo(name, if n.Some? then Some(n.value * 0.000001) else None,
                           BaseUrl + "data/ILIAS/" + ("mobs/mm_" + d + "/" + (name + Token + rest)))))
  {
    CaptionedParts();
    RelativeVideo(pre, "data/ILIAS/", d, name, rest, n);
  }

  /** tests/test_parseVideo.py:47 and 84-89: the video without a caption. */
  lemma VideoWithoutCaptionExample(pre: string, d: string, name: string, rest: string, n: Option<real>)
    requires pre == "./" + "data/ILIAS/" && d == "1299655"
    requires name == "HS20_EinfPoWi_Politische_Kultur_" + "und_Sozialisation_A_komprimiert.m4v"
    requires rest == "=60e9a0575393b725438513fc1d2aadfba054221a" + "&il_wac_ttl=3&il_wac_ts=1603624667"
    ensures ParseVideo(Figure(Some(VideoSource(pre + ("mobs/mm_" + d + "/" + (name + Token + rest)), n))))
      == Ok(Some(VideoInfo(name, if n.Some? then Some(n.value * 0.000001) else None,
                           BaseUrl + "data/ILIAS/" + ("mobs/mm_" + d + "/" + (name + Token + rest)))))
  {
    PlainParts();
    PlainRest();
    RelativeVideo(pre, "data/ILIAS/", d, name, rest, n);
  }

  /** A source `./x` is joined below the root. */
  lemma RelativeSource(pre: string, x: string, t: string)
    requires pre == "./" + x
    ensures JoinBase(pre + t) == BaseUrl + x + t
  {
    var src := pre + t;
    assert src[..2] == "./";
    assert src[2..] == x + t;
    JoinBaseDot(src);
    AppendAssoc(BaseUrl, x, t);
  }

  // ---------------------------------------------------------------------------
  // scanContainerList

  /** An item that becomes a file record: it has a link and the link is a file. */
  predicate IsFileItem(item: ListItem) {
    item.href.Some? && DetermineItemType(JoinBase(item.href.value)) == File
  }

  /** An item that is queued for scanning: a folder, task unit or learning module. */
  predicate IsScanItem(item: ListItem) {
    item.href.Some? && DetermineItemType(JoinBase(item.href.value)) in {Folder, Task, Lernmaterialien}
  }

  function EntryOf(item: ListItem): ScanEntry
    requires item.href.Some?
  {
    ScanEntry(DetermineItemType(JoinBase(item.href.value)), item.text, JoinBase(item.href.value))
  }

  /** One item of the container list. */
  function ContainerItem(course: string, path: string, item: ListItem): (o: ScanOutcome)
    ensures |o.files| + |o.toScan| <= 1
    ensures o.files != [] <==> IsFileItem(item) && ParseFileProperties(item.slots).Ok?
    ensures o.fault.Some? <==> IsFileItem(item) && ParseFileProperties(item.slots).Err?
    ensures o.toScan != [] <==> IsScanItem(item)
    ensures IsScanItem(item) ==> o.toScan == [EntryOf(item)]
  {
    match item.href
    case None => Nothing
    case Some(h) =>
      var url := JoinBase(h);
      var kind := DetermineItemType(url);
      if kind == File then
        match ParseFileProperties(item.slots)
        case Err(e) => ScanOutcome([], [], Some(PropertyFault(e)))
        case Ok(p) => ScanOutcome([FileRecord(course, item.text + p.ending, p.size, p.modDate, url, path)], [], None)
      else if kind in {Folder, Task, Lernmaterialien} then
        ScanOutcome([], [ScanEntry(kind, item.text, url)], None)
      else Nothing
  }

  /** `scanContainerList(course_name, file_path, soup)` over the items in document order. */
  function ContainerScan(course: string, path: string, items: seq<ListItem>): (o: ScanOutcome)
    ensures |o.files| + |o.toScan| <= |items|
    ensures forall k | 0 <= k < |o.files| ::
      o.files[k].course == course && o.files[k].path == path && DetermineItemType(o.files[k].url) == File
    ensures forall k | 0 <= k < |o.toScan| :: o.toScan[k].kind in {Folder, Task, Lernmaterialien}
  {
    if items == [] then Nothing
    else Then(ContainerItem(course, path, items[0]), ContainerScan(course, path, items[1..]))
  }

  /** The entries queued by a scan that raised nothing: the scan items, in order. */
  function ScanEntries(items: seq<ListItem>): seq<ScanEntry> {
    if items == [] then []
    else (if IsScanItem(items[0]) then [EntryOf(items[0])] else []) + ScanEntries(items[1..])
  }

  function FileItemCount(items: seq<ListItem>): nat {
    if items == [] then 0 else (if IsFileItem(items[0]) then 1 else 0) + FileItemCount(items[1..])
  }

  /**
   * A scan that raises nothing queues exactly the folder, task and
   * learning-module items, in document order, and records one file per file
   * item; links, forums and items without a link add nothing.
   */
  lemma {:induction false} ContainerScanComplete(course: string, path: string, items: seq<ListItem>)
    requires ContainerScan(course, path, items).fault.None?
    ensures ContainerScan(course, path, items).toScan == ScanEntries(items)
    ensures |ContainerScan(course, path, items).files| == FileItemCount(items)
    decreases |items|
  {
    if items != [] {
      var first := ContainerItem(course, path, items[0]);
      assert first.fault.None?;
      ContainerScanComplete(course, path, items[1..]);
    }
  }

  /** A file item contributes a record named by its link text and the extension, carrying the properties read from its spans. */
  lemma FileItemRecord(course: string, path: string, item: ListItem)
    requires IsFileItem(item) && ParseFileProperties(item.slots).Ok?
    ensures ContainerItem(course, path, item).files == [FileRecord(course,
      item.text + ParseFileProperties(item.slots).value.ending,
      ParseFileProperties(item.slots).value.size,
      ParseFileProperties(item.slots).value.modDate,
      JoinBase(item.href.value), path)]
  {
  }

  lemma {:induction false} ContainerScanConcat(course: string, path: string, a: seq<ListItem>, b: seq<ListItem>)
    ensures ContainerScan(course, path, a + b) == Then(ContainerScan(course, path, a), ContainerScan(course, path, b))
    decreases |a|
  {
    if a == [] {
      assert a + b == b;
    } else {
      assert (a + b)[0] == a[0] && (a + b)[1..] == a[1..] + b;
      ContainerScanConcat(course, path, a[1..], b);
      ThenAssociative(ContainerItem(course, path, a[0]), ContainerScan(course, path, a[1..]), ContainerScan(course, path, b));
    }
  }

  /** One more item after a prefix that raised nothing appends what that item gives. */
  lemma ContainerScanSnoc(course: string, path: string, a: seq<ListItem>, item: ListItem)
    requires ContainerScan(course, path, a).fault.None?
    ensures ContainerScan(course, path, a + [item]).files == ContainerScan(course, path, a).files + ContainerItem(course, path, item).files
    ensures ContainerScan(course, path, a + [item]).toScan == ContainerScan(course, path, a).toScan + ContainerItem(course, path, item).toScan
    ensures ContainerScan(course, path, a + [item]).fault == ContainerItem(course, path, item).fault
  {
    ContainerScanConcat(course, path, a, [item]);
    ContainerScanOne(course, path, item);
  }

  lemma ContainerScanOne(course: string, path: string, item: ListItem)
    ensures ContainerScan(course, path, [item]) == ContainerItem(course, path, item)
  {
    var one := ContainerItem(course, path, item);
    assert [item][1..] == [];
    assert ContainerScan(course, path, [item]) == Then(one, Nothing);
    AppendEmpty(one.files);
    AppendEmpty(one.toScan);
  }

  /** Once a prefix has raised, the items after it are not looked at. */
  lemma ContainerScanRaised(course: string, path: string, a: seq<ListItem>, b: seq<ListItem>)
    requires ContainerScan(course, path, a).fault.Some?
    ensures ContainerScan(course, path, a + b).files == ContainerScan(course, path, a).files
    ensures ContainerScan(course, path, a + b).toScan == ContainerScan(course, path, a).toScan
    ensures ContainerScan(course, path, a + b).fault == ContainerScan(course, path, a).fault
  {
    ContainerScanConcat(course, path, a, b);
  }

  /**
   * The scan raised at item `k`: a file item whose properties cannot be
   * read, after items that raised nothing, keeping what they appended.
   */
  predicate StopsAt(course: string, path: string, items: seq<ListItem>, k: nat) {
    && k < |items|
    && IsFileItem(items[k]) && ParseFileProperties(items[k].slots).Err?
    && ContainerScan(course, path, items[..k]).fault.None?
    && ContainerScan(course, path, items) == ScanOutcome(
         ContainerScan(course, path, items[..k]).files,
         ContainerScan(course, path, items[..k]).toScan,
         Some(PropertyFault(ParseFileProperties(items[k].slots).error)))
  }

  /** An exception stops the scan at the first file item whose properties cannot be read. */
  lemma {:induction false} ContainerScanStops(course: string, path: string, items: seq<ListItem>)
    requires ContainerScan(course, path, items).fault.Some?
    ensures exists k: nat :: StopsAt(course, path, items, k)
    decreases |items|
  {
    var first := ContainerItem(course, path, items[0]);
    assert items[..0] == [];
    if first.fault.Some? {
      assert ContainerScan(course, path, items[..0]) == Nothing;
      assert StopsAt(course, path, items, 0);
    } else {
      var tail := items[1..];
      ContainerScanStops(course, path, tail);
      var k: nat :| StopsAt(course, path, tail, k);
      assert items[..k + 1][0] == items[0] && items[..k + 1][1..] == tail[..k];
      assert items[k + 1] == tail[k];
      assert StopsAt(course, path, items, k + 1);
    }
  }

  // ---------------------------------------------------------------------------
  // Paths

  /** `file_path.replace(":", " - ")`. */
  function NoColons(p: string): (r: string)
    ensures Lacks(r, ':')
  {
    SubstRemoves(p, ':', " - ");
    ReplaceOneChar(p, ':', " - ");
    Replace(p, ":", " - ")
  }

  /** `scanFolder`: the course, the breadcrumb lines from the fifth to the last but one, then `/`; colons become ` - `. */
  function FolderPath(course: string, breadcrumb: string): (p: string)
    ensures Lacks(p, ':')
  {
    NoColons(course + "/" + Join("/", SliceFromTo(SplitOn(breadcrumb, '\n'), 4, 1)) + "/")
  }

  /** `scanTaskUnit`: `course/Aufgaben/<task unit>/`; colons become ` - `. */
  function TaskPath(course: string, unitName: string): (p: string)
    ensures Lacks(p, ':')
  {
    NoColons(course + "/" + "Aufgaben/" + unitName + "/")
  }

  /** The folder path begins with the course (its colons replaced) and a `/`, and ends with `/`. */
  lemma FolderPathShape(course: string, breadcrumb: string)
    ensures exists mid :: FolderPath(course, breadcrumb) == Subst(course, ':', " - ") + "/" + mid + "/"
  {
    var mid := Join("/", SliceFromTo(SplitOn(breadcrumb, '\n'), 4, 1));
    var p := course + "/" + mid + "/";
    ReplaceOneChar(p, ':', " - ");
    SubstConcat(course + "/" + mid, "/", ':', " - ");
    SubstConcat(course + "/", mid, ':', " - ");
    SubstConcat(course, "/", ':', " - ");
    assert Subst("/", ':', " - ") == "/";
    assert FolderPath(course, breadcrumb) == Subst(course, ':', " - ") + "/" + Subst(mid, ':', " - ") + "/";
  }

  /** The task path is the course (its colons replaced), `/Aufgaben/`, the unit name (its colons replaced) and `/`. */
  lemma TaskPathShape(course: string, unitName: string)
    ensures TaskPath(course, unitName)
      == Subst(course, ':', " - ") + "/" + "Aufgaben/" + Subst(unitName, ':', " - ") + "/"
  {
    var p := course + "/" + "Aufgaben/" + unitName + "/";
    ReplaceOneChar(p, ':', " - ");
    SubstConcat(course + "/" + "Aufgaben/" + unitName, "/", ':', " - ");
    SubstConcat(course + "/" + "Aufgaben/", unitName, ':', " - ");
    SubstConcat(course + "/", "Aufgaben/", ':', " - ");
    SubstConcat(course, "/", ':', " - ");
    assert Subst("/", ':', " - ") == "/";
    TaskDirPlain("Aufgaben/");
  }

  /** The fixed directory of the task units has no colon to replace. */
  lemma TaskDirPlain(dir: string)
    requires dir == "Aufgaben/"
    ensures Subst(dir, ':', " - ") == dir
  {
    assert Lacks(dir, ':');
    SubstAbsent(dir, ':', " - ");
  }

  /** Without colons the folder path is the plain join of the breadcrumb lines. */
  lemma FolderPathPlain(course: string, breadcrumb: string)
    requires Lacks(course, ':') && Lacks(breadcrumb, ':')
    ensures FolderPath(course, breadcrumb)
      == course + "/" + Join("/", SliceFromTo(SplitOn(breadcrumb, '\n'), 4, 1)) + "/"
  {
    var lines := SplitOn(breadcrumb, '\n');
    var parts := SliceFromTo(lines, 4, 1);
    SplitOnLacks(breadcrumb, '\n', ':');
    JoinLacks("/", parts, ':');
    var p := course + "/" + Join("/", parts) + "/";
    LacksConcat(course, "/", ':');
    LacksConcat(course + "/", Join("/", parts), ':');
    LacksConcat(course + "/" + Join("/", parts), "/", ':');
    ReplaceOneChar(p, ':', " - ");
    SubstAbsent(p, ':', " - ");
  }

  lemma {:induction false} SplitOnLacks(s: string, c: char, d: char)
    requires Lacks(s, d)
    ensures forall k | 0 <= k < |SplitOn(s, c)| :: Lacks(SplitOn(s, c)[k], d)
    decreases |s|
  {
    var i := IndexOf(s, c);
    if i < |s| {
      SplitOnLacks(s[i + 1..], c, d);
      assert SplitOn(s, c) == [s[..i]] + SplitOn(s[i + 1..], c);
    }
  }

  lemma {:induction false} JoinLacks(sep: string, parts: seq<string>, d: char)
    requires Lacks(sep, d) && forall k | 0 <= k < |parts| :: Lacks(parts[k], d)
    ensures Lacks(Join(sep, parts), d)
    decreases |parts|
  {
    if |parts| > 1 {
      JoinLacks(sep, parts[1..], d);
      LacksConcat(parts[0], sep, d);
      LacksConcat(parts[0] + sep, Join(sep, parts[1..]), d);
    }
  }

  /** A breadcrumb of the portal: four header lines, the trail, and a last line; the trail becomes the path. */
  lemma FolderPathOfTrail(course: string, head: seq<string>, trail: seq<string>, last: string)
    requires |head| == 4
    ensures Join("/", SliceFromTo(head + trail + [last], 4, 1)) == Join("/", trail)
  {
    var lines := head + trail + [last];
    assert lines[4..|lines| - 1] == trail;
  }

  // ---------------------------------------------------------------------------
  // Task units

  /** A `div.form-group` of a task unit: the `href` of its link and the text of its property. */
  datatype TaskItem = TaskItem(href: string, name: string)

  /** A task-unit file: no size and the fixed date 2000-01-01. */
  function TaskRecord(course: string, path: string, item: TaskItem): (r: FileRecord)
    ensures r.size.None? && r.modDate == Sentinel && IsAbsolute(r.url)
    ensures r.course == course && r.path == path && r.name == item.name
  {
    FileRecord(course, item.name, None, Sentinel, JoinBase(item.href), path)
  }

  /** The submissions section of a task unit, as `scanTaskUnitSubmissions` reads it. */
  datatype Submissions = Submissions(
    deadline: string,       // the text of the deadline field
    deadlinePassed: bool,   // `parsedate(deadline) < datetime.now()`
    gradesTab: bool,        // the page has a `#tab_grades > a` link
    title: string)          // the `#il_mhead_t_focus` text of the grades page

  /** An entry of `background_task_files`: like a file record, but without a URL. */
  datatype Placeholder = Placeholder(course: string, name: string, size: Option<real>, modDate: ModDate, path: string)

  /** The archive name: the title without line breaks, then `.zip`. */
  function ArchiveName(title: string): (n: string)
    ensures Lacks(n, '\n') && |n| >= 4 && n[|n| - 4..] == ".zip"
  {
    SubstRemoves(title, '\n', "");
    ReplaceOneChar(title, '\n', "");
    var t := Replace(title, "\n", "");
    LacksConcat(t, ".zip", '\n');
    t + ".zip"
  }

  /** `scanTaskUnitSubmissions`: a placeholder once the deadline has passed and the grades tab is visible. */
  function SubmissionPlaceholder(course: string, path: string, s: Submissions): (r: Option<Placeholder>)
    ensures r.Some? <==> s.deadlinePassed && s.gradesTab
    ensures r.Some? ==> (r.value.size.None? && r.value.modDate == Parsed(s.deadline)
      && r.value.name == ArchiveName(s.title) && r.value.course == course && r.value.path == path)
  {
    if s.deadlinePassed && s.gradesTab then
      Some(Placeholder(course, ArchiveName(s.title), None, Parsed(s.deadline), path))
    else None
  }
}
