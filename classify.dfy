/**
 * `_determineItemType`: an item of a folder listing is classified by the
 * first marker its URL contains, in a fixed order; a URL without any
 * marker is a folder.
 */
module Classify {
  import opened Text
  import opened Numbers
  import Urls

  datatype ItemKind = File | Link | Forum | Task | Lernmaterialien | Folder

  datatype Rule = Rule(marker: string, kind: ItemKind)

  /** The markers tested by IliasDL.py:184-193, in order. */
  const Rules: seq<Rule> := [
    Rule("target=file", File),
    Rule("calldirectlink", Link),
    Rule("showThreads", Forum),
    Rule("showOverview", Task),
    Rule("ilHTLMPresentationGUI", Lernmaterialien)
  ]

  /** The markers tested by the older `_determineItemType` (__init__.py:156-163): no learning modules. */
  const LegacyRules: seq<Rule> := Rules[..4]

  /** Reference reading of an `if`/`elif` chain over rules: the first rule whose marker occurs wins. */
  function FirstMatch(rules: seq<Rule>, url: string): (k: ItemKind)
    ensures (forall j | 0 <= j < |rules| :: !Contains(url, rules[j].marker)) ==> k == Folder
    ensures forall i | 0 <= i < |rules| ::
      Contains(url, rules[i].marker) && (forall j | 0 <= j < i :: !Contains(url, rules[j].marker))
      ==> k == rules[i].kind
  {
    if rules == [] then Folder
    else if Contains(url, rules[0].marker) then rules[0].kind
    else
      var k := FirstMatch(rules[1..], url);
      assert forall i | 1 <= i < |rules| :: rules[i] == rules[1..][i - 1];
      k
  }

  /** `_determineItemType(url)` of IliasDL.py. */
  function DetermineItemType(url: string): (k: ItemKind)
    ensures k == File <==> Contains(url, "target=file")
  {
    if Contains(url, "target=file") then File
    else if Contains(url, "calldirectlink") then Link
    else if Contains(url, "showThreads") then Forum
    else if Contains(url, "showOverview") then Task
    else if Contains(url, "ilHTLMPresentationGUI") then Lernmaterialien
    else Folder
  }

  /** `_determineItemType(url)` of the older version. */
  function LegacyDetermineItemType(url: string): (k: ItemKind)
    ensures k != Lernmaterialien
  {
    if Contains(url, "target=file") then File
    else if Contains(url, "calldirectlink") then Link
    else if Contains(url, "showThreads") then Forum
    else if Contains(url, "showOverview") then Task
    else Folder
  }

  /** The `elif` chain is the first-match reading of `Rules`. */
  lemma DetermineItemTypeIsFirstMatch(url: string)
    ensures DetermineItemType(url) == FirstMatch(Rules, url)
  {
    var k := FirstMatch(Rules, url);
    assert Rules[0].marker == "target=file" && Rules[1].marker == "calldirectlink";
    assert Rules[2].marker == "showThreads" && Rules[3].marker == "showOverview";
    assert Rules[4].marker == "ilHTLMPresentationGUI";
    if Contains(url, "target=file") {
      assert k == Rules[0].kind;
    } else if Contains(url, "calldirectlink") {
      assert k == Rules[1].kind;
    } else if Contains(url, "showThreads") {
      assert k == Rules[2].kind;
    } else if Contains(url, "showOverview") {
      assert k == Rules[3].kind;
    } else if Contains(url, "ilHTLMPresentationGUI") {
      assert k == Rules[4].kind;
    }
  }

  /** The older chain is the first-match reading of `LegacyRules`. */
  lemma LegacyDetermineItemTypeIsFirstMatch(url: string)
    ensures LegacyDetermineItemType(url) == FirstMatch(LegacyRules, url)
  {
    var k := FirstMatch(LegacyRules, url);
    assert |LegacyRules| == 4;
    assert LegacyRules[0].marker == "target=file" && LegacyRules[1].marker == "calldirectlink";
    assert LegacyRules[2].marker == "showThreads" && LegacyRules[3].marker == "showOverview";
    if Contains(url, "target=file") {
      assert k == LegacyRules[0].kind;
    } else if Contains(url, "calldirectlink") {
      assert k == LegacyRules[1].kind;
    } else if Contains(url, "showThreads") {
      assert k == LegacyRules[2].kind;
    } else if Contains(url, "showOverview") {
      assert k == LegacyRules[3].kind;
    }
  }

  /** A URL is a folder exactly when it contains none of the markers. */
  lemma FolderIffNoMarker(url: string)
    ensures DetermineItemType(url) == Folder <==>
      forall j | 0 <= j < |Rules| :: !Contains(url, Rules[j].marker)
  {
    assert Rules[0] == Rule("target=file", File);
    assert Rules[1] == Rule("calldirectlink", Link);
    assert Rules[2] == Rule("showThreads", Forum);
    assert Rules[3] == Rule("showOverview", Task);
    assert Rules[4] == Rule("ilHTLMPresentationGUI", Lernmaterialien);
  }

  /** The two versions agree, except that the older one treats learning modules as folders. */
  lemma LegacyAgrees(url: string)
    ensures LegacyDetermineItemType(url) ==
      (if DetermineItemType(url) == Lernmaterialien then Folder else DetermineItemType(url))
  {
  }

  // ---------------------------------------------------------------------------
  // Course URLs are folders

  lemma DigitsDisjoint(d: string, sub: string)
    requires AllDigits(d)
    requires forall k | 0 <= k < |sub| :: !IsDigit(sub[k])
    ensures Disjoint(d, sub)
  {
    forall i | 0 <= i < |d| ensures d[i] !in sub {
      forall k | 0 <= k < |sub| ensures sub[k] != d[i] {
        assert IsDigit(d[i]);
      }
    }
  }

  /** A character missing from every literal part of a course URL. */
  lemma CourseUrlLacks(refId: nat, c: char)
    requires !IsDigit(c)
    requires Lacks(Urls.BaseUrl, c) && Lacks("ilias.php?ref_id=", c) && Lacks("&", c)
    requires Lacks("cmd=frameset", c) && Lacks("cmdClass=ilrepositorygui", c)
    requires Lacks("cmdNode=vi", c) && Lacks("baseClass=ilrepositorygui", c)
    ensures Lacks(Urls.CreateIliasUrl(refId), c)
  {
    var d := NatToString(refId);
    assert Lacks(d, c);
    var q3 := "&" + "baseClass=ilrepositorygui";
    var q2 := "&" + ("cmdNode=vi" + q3);
    var q1 := "&" + ("cmdClass=ilrepositorygui" + q2);
    LacksConcat("&", "baseClass=ilrepositorygui", c);
    LacksConcat("cmdNode=vi", q3, c);
    LacksConcat("&", "cmdNode=vi" + q3, c);
    LacksConcat("cmdClass=ilrepositorygui", q2, c);
    LacksConcat("&", "cmdClass=ilrepositorygui" + q2, c);
    LacksConcat("cmd=frameset", q1, c);
    LacksConcat("&", "cmd=frameset" + q1, c);
    assert Urls.CourseUrlTail == "&" + ("cmd=frameset" + q1);
    var a := Urls.BaseUrl + "ilias.php?ref_id=";
    LacksConcat(Urls.BaseUrl, "ilias.php?ref_id=", c);
    LacksConcat(a, d, c);
    LacksConcat(a + d, Urls.CourseUrlTail, c);
  }

  lemma PieceNoFileMarker(x: string, z: string, k: nat)
    requires k < 11 && Lacks(x, "target=file"[k]) && !Contains(z, "target=file")
    ensures !Contains(x + ("&" + z), "target=file")
  {
    NotContainsByChar(x, "target=file", k);
    assert Disjoint("&", "target=file");
    NotContainsAcross(x, "&", z, "target=file");
    assert x + "&" + z == x + ("&" + z);
  }

  /** `target=file` does not occur after the ref id: every piece lacks one of its letters. */
  lemma TailNoFileMarker()
    ensures !Contains(Urls.CourseUrlTail, "target=file")
  {
    var m := "target=file";
    assert m[3] == 'g' && m[7] == 'f' && m[0] == 't';
    var q4 := "baseClass=ilrepositorygui";
    NotContainsByChar(q4, m, 7);
    PieceNoFileMarker("cmdNode=vi", q4, 0);
    var q3 := "cmdNode=vi" + ("&" + q4);
    PieceNoFileMarker("cmdClass=ilrepositorygui", q3, 7);
    var q2 := "cmdClass=ilrepositorygui" + ("&" + q3);
    PieceNoFileMarker("cmd=frameset", q2, 3);
    var q1 := "cmd=frameset" + ("&" + q2);
    var none: string := [];
    PieceNoFileMarker(none, q1, 0);
    assert none + ("&" + q1) == Urls.CourseUrlTail;
  }

  /** No `target=file` in a course URL: it does not fit in the prefix, the ref id or the tail. */
  lemma CourseUrlNoFileMarker(refId: nat)
    ensures !Contains(Urls.CreateIliasUrl(refId), "target=file")
  {
    var m := "target=file";
    var d := NatToString(refId);
    var a := Urls.BaseUrl + "ilias.php?ref_id=";
    assert m[3] == 'g';
    assert !Contains(a, m) by {
      LacksConcat(Urls.BaseUrl, "ilias.php?ref_id=", 'g');
      NotContainsByChar(a, m, 3);
    }
    TailNoFileMarker();
    assert forall k | 0 <= k < |m| :: !IsDigit(m[k]);
    DigitsDisjoint(d, m);
    NotContainsAcross(a, d, Urls.CourseUrlTail, m);
  }

  // The letters `k`, `w` and `H` are missing from every literal part of a
  // course URL; one lemma per letter keeps each proof small.
  lemma CourseUrlLacksK(refId: nat)
    ensures Lacks(Urls.CreateIliasUrl(refId), 'k')
  {
    CourseUrlLacks(refId, 'k');
  }

  lemma CourseUrlLacksW(refId: nat)
    ensures Lacks(Urls.CreateIliasUrl(refId), 'w')
  {
    CourseUrlLacks(refId, 'w');
  }

  lemma CourseUrlLacksH(refId: nat)
    ensures Lacks(Urls.CreateIliasUrl(refId), 'H')
  {
    CourseUrlLacks(refId, 'H');
  }

  /** A URL without any marker is a folder. */
  lemma FolderWithoutMarkers(url: string)
    requires !Contains(url, "target=file") && !Contains(url, "calldirectlink")
    requires !Contains(url, "showThreads") && !Contains(url, "showOverview")
    requires !Contains(url, "ilHTLMPresentationGUI")
    ensures DetermineItemType(url) == Folder
  {
  }

  /** `addCourse` stores URLs that are scanned as folders (IliasDL.py:89-91, 124-137). */
  lemma {:induction false} CourseUrlIsFolder(refId: nat)
    ensures DetermineItemType(Urls.CreateIliasUrl(refId)) == Folder
  {
    var url := Urls.CreateIliasUrl(refId);
    CourseUrlNoFileMarker(refId);
    CourseUrlLacksK(refId);
    NotContainsByChar(url, "calldirectlink", 13);
    CourseUrlLacksW(refId);
    NotContainsByChar(url, "showThreads", 3);
    NotContainsByChar(url, "showOverview", 3);
    CourseUrlLacksH(refId);
    NotContainsByChar(url, "ilHTLMPresentationGUI", 2);
    FolderWithoutMarkers(url);
  }
}
