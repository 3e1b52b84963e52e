/**
 * Matching the archives of the background-tasks bar against the queued
 * submission placeholders (`searchBackgroundTaskFile`,
 * `parseBackgroundTasks`): placeholder names are transliterated (umlauts
 * and `ß` become digraphs) as the list is searched, and the first match
 * is removed from the list.
 */
module Background {
  import opened Wrappers
  import opened Text
  import opened Listing
  import opened Seqs

  /** The characters `searchBackgroundTaskFile` replaces. */
  predicate IsUmlaut(c: char) {
    c in "üÜäÄöÖß"
  }

  predicate NoUmlaut(s: string) {
    forall i | 0 <= i < |s| :: !IsUmlaut(s[i])
  }

  /**
   * The seven replacements, in the order of IliasDL.py:413-419. They are
   * applied to the UTF-8 bytes of the name; since UTF-8 is self-synchronising,
   * the bytes of one character never match inside the bytes of another, so
   * replacing bytes is replacing characters.
   */
  function Translit(s: string): string {
    var s1 := Replace(s, "ü", "ue");
    var s2 := Replace(s1, "Ü", "Ue");
    var s3 := Replace(s2, "ä", "ae");
    var s4 := Replace(s3, "Ä", "Ae");
    var s5 := Replace(s4, "ö", "oe");
    var s6 := Replace(s5, "Ö", "Oe");
    Replace(s6, "ß", "ss")
  }

  /** Reference reading: the digraph of one character. */
  function Digraph(c: char): (d: string)
    ensures NoUmlaut(d)
    ensures !IsUmlaut(c) ==> d == [c]
  {
    match c
    case 'ü' => "ue"
    case 'Ü' => "Ue"
    case 'ä' => "ae"
    case 'Ä' => "Ae"
    case 'ö' => "oe"
    case 'Ö' => "Oe"
    case 'ß' => "ss"
    case _ => [c]
  }

  /** Reference reading: every character replaced by its digraph. */
  function Fold(s: string): (r: string)
    ensures NoUmlaut(r)
  {
    if s == [] then [] else Digraph(s[0]) + Fold(s[1..])
  }

  /** The seven replacements as substitutions of characters. */
  function SubstChain(s: string): string {
    Subst(Subst(Subst(Subst(Subst(Subst(Subst(s, 'ü', "ue"), 'Ü', "Ue"), 'ä', "ae"), 'Ä', "Ae"), 'ö', "oe"), 'Ö', "Oe"), 'ß', "ss")
  }

  lemma TranslitIsSubstChain(s: string)
    ensures Translit(s) == SubstChain(s)
  {
    var s1 := Subst(s, 'ü', "ue");
    var s2 := Subst(s1, 'Ü', "Ue");
    var s3 := Subst(s2, 'ä', "ae");
    var s4 := Subst(s3, 'Ä', "Ae");
    var s5 := Subst(s4, 'ö', "oe");
    var s6 := Subst(s5, 'Ö', "Oe");
    ReplaceOneChar(s, 'ü', "ue");
    ReplaceOneChar(s1, 'Ü', "Ue");
    ReplaceOneChar(s2, 'ä', "ae");
    ReplaceOneChar(s3, 'Ä', "Ae");
    ReplaceOneChar(s4, 'ö', "oe");
    ReplaceOneChar(s5, 'Ö', "Oe");
    ReplaceOneChar(s6, 'ß', "ss");
  }

  lemma SubstChainConcat(a: string, b: string)
    ensures SubstChain(a + b) == SubstChain(a) + SubstChain(b)
  {
    var a1, b1 := Subst(a, 'ü', "ue"), Subst(b, 'ü', "ue");
    var a2, b2 := Subst(a1, 'Ü', "Ue"), Subst(b1, 'Ü', "Ue");
    var a3, b3 := Subst(a2, 'ä', "ae"), Subst(b2, 'ä', "ae");
    var a4, b4 := Subst(a3, 'Ä', "Ae"), Subst(b3, 'Ä', "Ae");
    var a5, b5 := Subst(a4, 'ö', "oe"), Subst(b4, 'ö', "oe");
    var a6, b6 := Subst(a5, 'Ö', "Oe"), Subst(b5, 'Ö', "Oe");
    SubstConcat(a, b, 'ü', "ue");
    SubstConcat(a1, b1, 'Ü', "Ue");
    SubstConcat(a2, b2, 'ä', "ae");
    SubstConcat(a3, b3, 'Ä', "Ae");
    SubstConcat(a4, b4, 'ö', "oe");
    SubstConcat(a5, b5, 'Ö', "Oe");
    SubstConcat(a6, b6, 'ß', "ss");
  }

  /** A string without the seven characters passes the chain unchanged. */
  lemma SubstChainNoUmlaut(s: string)
    requires NoUmlaut(s)
    ensures SubstChain(s) == s
  {
    assert Lacks(s, 'ü') && Lacks(s, 'Ü') && Lacks(s, 'ä') && Lacks(s, 'Ä');
    assert Lacks(s, 'ö') && Lacks(s, 'Ö') && Lacks(s, 'ß');
    SubstAbsent(s, 'ü', "ue");
    SubstAbsent(s, 'Ü', "Ue");
    SubstAbsent(s, 'ä', "ae");
    SubstAbsent(s, 'Ä', "Ae");
    SubstAbsent(s, 'ö', "oe");
    SubstAbsent(s, 'Ö', "Oe");
    SubstAbsent(s, 'ß', "ss");
  }

  /** A substitution on one character. */
  lemma SubstOne(c: char, d: char, rep: string)
    ensures Subst([c], d, rep) == if c == d then rep else [c]
  {
    assert [c][1..] == [];
  }

  /** An umlaut is rewritten by its own step; the steps after it leave the digraph alone. */
  lemma SubstChainFrom(c: char)
    requires IsUmlaut(c)
    ensures SubstChain([c]) == Digraph(c)
  {
    if c == 'ü' {
      ChainLowerU();
    } else if c == 'Ü' {
      ChainUpperU();
    } else if c == 'ä' {
      ChainLowerA();
    } else if c == 'Ä' {
      ChainUpperA();
    } else if c == 'ö' {
      ChainLowerO();
    } else if c == 'Ö' {
      ChainUpperO();
    } else {
      ChainSharpS();
    }
  }

  lemma ChainLowerU()
    ensures SubstChain("ü") == "ue"
  {
  }

  lemma ChainUpperU()
    ensures SubstChain("Ü") == "Ue"
  {
  }

  lemma ChainLowerA()
    ensures SubstChain("ä") == "ae"
  {
  }

  lemma ChainUpperA()
    ensures SubstChain("Ä") == "Ae"
  {
  }

  lemma ChainLowerO()
    ensures SubstChain("ö") == "oe"
  {
  }

  lemma ChainUpperO()
    ensures SubstChain("Ö") == "Oe"
  {
  }

  lemma ChainSharpS()
    ensures SubstChain("ß") == "ss"
  {
  }

  /** One character goes through the chain to its digraph. */
  lemma SubstChainChar(c: char)
    ensures SubstChain([c]) == Digraph(c)
  {
    if IsUmlaut(c) {
      SubstChainFrom(c);
    } else {
      SubstChainNoUmlaut([c]);
    }
  }

  /** The replacements in sequence are the per-character digraph reading. */
  lemma {:induction false} TranslitIsFold(s: string)
    ensures Translit(s) == Fold(s)
    decreases |s|
  {
    TranslitIsSubstChain(s);
    if s != [] {
      assert s == [s[0]] + s[1..];
      SubstChainConcat([s[0]], s[1..]);
      SubstChainChar(s[0]);
      TranslitIsFold(s[1..]);
      TranslitIsSubstChain(s[1..]);
    }
  }

  /** A transliterated name has no umlaut left, and transliterating it again changes nothing. */
  lemma TranslitIdempotent(s: string)
    ensures NoUmlaut(Translit(s))
    ensures Translit(Translit(s)) == Translit(s)
  {
    TranslitIsFold(s);
    TranslitIsSubstChain(Translit(s));
    SubstChainNoUmlaut(Translit(s));
  }

  /** A name without umlauts is kept as it is. */
  lemma TranslitPlain(s: string)
    requires NoUmlaut(s)
    ensures Translit(s) == s
  {
    TranslitIsSubstChain(s);
    SubstChainNoUmlaut(s);
  }

  // ---------------------------------------------------------------------------
  // searchBackgroundTaskFile

  function Transliterated(p: Placeholder): Placeholder {
    p.(name := Translit(p.name))
  }

  /** The list after the loop has rewritten its first `n` names. */
  function TranslitPrefix(fs: seq<Placeholder>, n: nat): (r: seq<Placeholder>)
    requires n <= |fs|
    ensures |r| == |fs|
    ensures forall k | 0 <= k < n :: r[k] == Transliterated(fs[k])
    ensures forall k | n <= k < |fs| :: r[k] == fs[k]
  {
    seq(|fs|, k requires 0 <= k < |fs| => if k < n then Transliterated(fs[k]) else fs[k])
  }

  /** The index of the first placeholder whose transliterated name is `elName`, or `|fs|`. */
  function MatchIndex(fs: seq<Placeholder>, elName: string): (i: nat)
    ensures i <= |fs|
    ensures i < |fs| ==> Translit(fs[i].name) == elName
    ensures forall k | 0 <= k < i :: Translit(fs[k].name) != elName
  {
    if fs == [] then 0
    else if Translit(fs[0].name) == elName then 0
    else 1 + MatchIndex(fs[1..], elName)
  }

  /** A placeholder whose name has no umlauts and equals `elName` is found at its own index or earlier. */
  lemma MatchIndexAtMost(fs: seq<Placeholder>, elName: string, j: nat)
    requires j < |fs| && NoUmlaut(fs[j].name) && fs[j].name == elName
    ensures MatchIndex(fs, elName) <= j
  {
    TranslitPlain(fs[j].name);
  }

  // ---------------------------------------------------------------------------
  // parseBackgroundTasks

  /**
   * An `il-item-task` of the background-tasks bar: its download and remove
   * URLs, both already joined with the portal root (`urljoin` of the
   * buttons' `data-action`), and its title.
   */
  datatype TaskBarItem = TaskBarItem(downloadUrl: string, removeUrl: string, title: string)

  /** The state of the search: the remaining placeholders and the files added so far. */
  datatype Matching = Matching(placeholders: seq<Placeholder>, added: seq<FileRecord>)

  /** `searchBackgroundTaskFile(el_name)` on a list: the placeholder found, and the list after the search. */
  function Search(fs: seq<Placeholder>, elName: string): (r: (Option<Placeholder>, seq<Placeholder>))
    ensures r.0.Some? <==> MatchIndex(fs, elName) < |fs|
    ensures r.0.Some? ==> r.0.value.name == elName && |r.1| + 1 == |fs|
    ensures r.0.Some? ==> r.0.value == Transliterated(fs[MatchIndex(fs, elName)])
    ensures r.0.Some? ==> forall k | 0 <= k < MatchIndex(fs, elName) :: r.1[k] == Transliterated(fs[k])
    ensures r.0.Some? ==> forall k | MatchIndex(fs, elName) <= k < |r.1| :: r.1[k] == fs[k + 1]
    ensures r.0.None? ==> |r.1| == |fs| && forall k | 0 <= k < |fs| :: r.1[k] == Transliterated(fs[k])
  {
    var i := MatchIndex(fs, elName);
    if i < |fs| then
      (Some(Transliterated(fs[i])), TranslitPrefix(fs, i)[..i] + fs[i + 1..])
    else (None, TranslitPrefix(fs, |fs|))
  }

  /** The file a matched archive becomes: the placeholder's course, size, date and path with the archive's URL. */
  function ArchiveRecord(task: TaskBarItem, bt: Placeholder): FileRecord {
    FileRecord(bt.course, ArchiveName(task.title), bt.size, bt.modDate, task.downloadUrl, bt.path)
  }

  /** One task of the bar: the archive named by its title is searched for, and a match adds a file. */
  function MatchOne(m: Matching, task: TaskBarItem): (r: Matching)
    ensures r.placeholders == Search(m.placeholders, ArchiveName(task.title)).1
    ensures Search(m.placeholders, ArchiveName(task.title)).0.Some? ==>
      r.added == m.added + [ArchiveRecord(task, Search(m.placeholders, ArchiveName(task.title)).0.value)]
    ensures Search(m.placeholders, ArchiveName(task.title)).0.None? ==> r.added == m.added
    ensures |r.added| == |m.added| + 1 ==> |r.placeholders| + 1 == |m.placeholders|
    ensures |r.added| == |m.added| + 1 ==> r.added[|m.added|].name == ArchiveName(task.title) && r.added[|m.added|].url == task.downloadUrl
    ensures |r.added| == |m.added| ==> |r.placeholders| == |m.placeholders|
  {
    var s := Search(m.placeholders, ArchiveName(task.title));
    match s.0
    case Some(p) => Matching(s.1, m.added + [ArchiveRecord(task, p)])
    case None => Matching(s.1, m.added)
  }

  /** The tasks of the bar handled in order: each match consumes one placeholder and adds one file. */
  function MatchTasks(m: Matching, tasks: seq<TaskBarItem>): (r: Matching)
    ensures |m.added| <= |r.added| <= |m.added| + |tasks|
    ensures |r.added| + |r.placeholders| == |m.added| + |m.placeholders|
    ensures r.added[..|m.added|] == m.added
    decreases |tasks|
  {
    if tasks == [] then m
    else
      var next := MatchOne(m, tasks[0]);
      var r := MatchTasks(next, tasks[1..]);
      MatchOneExtends(m, tasks[0]);
      TakeTake(r.added, |next.added|, |m.added|);
      r
  }

  /** One task adds at most one file, keeps the files before it, and consumes a placeholder for each file it adds. */
  lemma MatchOneExtends(m: Matching, task: TaskBarItem)
    ensures |m.added| <= |MatchOne(m, task).added| <= |m.added| + 1
    ensures |MatchOne(m, task).added| + |MatchOne(m, task).placeholders| == |m.added| + |m.placeholders|
    ensures MatchOne(m, task).added[..|m.added|] == m.added
  {
    var s := Search(m.placeholders, ArchiveName(task.title));
    if s.0.Some? {
      TakeAppend(m.added, [ArchiveRecord(task, s.0.value)]);
    } else {
      TakeAll(m.added);
    }
  }

  /** The remove URLs recorded for cleanup: one per task, in order. */
  function RemoveUrls(tasks: seq<TaskBarItem>): (urls: seq<string>)
    ensures |urls| == |tasks|
    ensures forall k | 0 <= k < |tasks| :: urls[k] == tasks[k].removeUrl
  {
    seq(|tasks|, k requires 0 <= k < |tasks| => tasks[k].removeUrl)
  }

  /** One more task records one more remove URL. */
  lemma RemoveUrlsSnoc(tasks: seq<TaskBarItem>, t: TaskBarItem)
    ensures RemoveUrls(tasks + [t]) == RemoveUrls(tasks) + [t.removeUrl]
  {
    assert forall k | 0 <= k < |tasks| :: (tasks + [t])[k] == tasks[k];
  }

  /** Without placeholders no archive is added, whatever the bar holds. */
  lemma {:induction false} MatchTasksNoPlaceholders(added: seq<FileRecord>, tasks: seq<TaskBarItem>)
    ensures MatchTasks(Matching([], added), tasks) == Matching([], added)
    decreases |tasks|
  {
    if tasks != [] {
      MatchTasksNoPlaceholders(added, tasks[1..]);
    }
  }

  /** A queued placeholder whose name has no umlauts is matched by the archive of the same name. */
  lemma PlaceholderMatched(fs: seq<Placeholder>, task: TaskBarItem, j: nat)
    requires j < |fs| && NoUmlaut(fs[j].name) && fs[j].name == ArchiveName(task.title)
    ensures Search(fs, ArchiveName(task.title)).0.Some?
  {
    MatchIndexAtMost(fs, ArchiveName(task.title), j);
  }
}
