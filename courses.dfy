/**
 * Course selection: the semester of the current date, the cleaning of
 * course names by `re.sub(r"\[.*\] ", "", name)`, the course record that
 * `addCourse` stores, and the courses `addAllSemesterCourses` picks from
 * the links of the start page.
 */
module Courses {
  import opened Wrappers
  import opened Text
  import opened Numbers
  import opened Urls
  import Classify
  import opened Seqs

  // ---------------------------------------------------------------------------
  // getCurrentSemester

  /**
   * The regular expression `\((T1|T2) YEAR\)` of `getCurrentSemester`: a
   * name is selected when it contains `(T YEAR)` for one of the terms.
   */
  datatype Semester = Semester(terms: seq<string>, year: nat)

  const SpringTerms: seq<string> := ["FSS", "ST"]
  const AutumnTerms: seq<string> := ["HWS", "WT"]

  /** The tag `(term year)` the pattern looks for. */
  function Tag(term: string, year: nat): string {
    "(" + term + " " + NatToString(year) + ")"
  }

  /** `re.search(pattern, name)` for the pattern of a semester. */
  predicate Matches(p: Semester, name: string) {
    exists k | 0 <= k < |p.terms| :: Contains(name, Tag(p.terms[k], p.year))
  }

  /** `getCurrentSemester()` at a date of the given month and year. */
  function GetCurrentSemester(month: nat, year: nat): (p: Semester)
    requires 1 <= month <= 12
    ensures p.year == year
    ensures p.terms == SpringTerms || p.terms == AutumnTerms
  {
    if 2 <= month <= 7 then Semester(SpringTerms, year) else Semester(AutumnTerms, year)
  }

  /** A name carrying the tag of the running term is selected: spring from February to July, autumn otherwise. */
  lemma CurrentSemesterSelects(month: nat, year: nat, before: string, after: string)
    requires 1 <= month <= 12
    ensures Matches(GetCurrentSemester(month, year),
      before + Tag(if 2 <= month <= 7 then "FSS" else "HWS", year) + after)
    ensures Matches(GetCurrentSemester(month, year),
      before + Tag(if 2 <= month <= 7 then "ST" else "WT", year) + after)
  {
    var p := GetCurrentSemester(month, year);
    var t1 := Tag(p.terms[0], year);
    var t2 := Tag(p.terms[1], year);
    assert OccursAt(before + t1 + after, t1, |before|) by {
      assert (before + t1 + after)[|before|..|before| + |t1|] == t1;
    }
    assert OccursAt(before + t2 + after, t2, |before|) by {
      assert (before + t2 + after)[|before|..|before| + |t2|] == t2;
    }
  }

  /** In January the pattern names the calendar year that has just begun, not the year the autumn term began. */
  lemma JanuaryPattern(year: nat)
    ensures GetCurrentSemester(1, year) == Semester(AutumnTerms, year)
    ensures GetCurrentSemester(12, year) == Semester(AutumnTerms, year)
  {
  }

  // ---------------------------------------------------------------------------
  // re.sub(r"\[.*\] ", "", name)

  /**
   * Every match of `\[.*\] ` removed, scanning from the left: a match runs
   * from a `[` to the last `] ` on the same line (`.` does not match a line
   * break); a `[` without such a closing is kept.
   */
  function StripBrackets(s: string): (r: string)
    ensures |r| <= |s|
    ensures s != [] && s[0] != '[' ==> r != [] && r[0] == s[0]
    decreases |s|
  {
    if s == [] then []
    else if s[0] == '[' && LastInLine(s, 1, "] ", |s| - 2).Some? then
      StripBrackets(s[LastInLine(s, 1, "] ", |s| - 2).value + 2..])
    else [s[0]] + StripBrackets(s[1..])
  }

  /** Characters before the first `[` are kept. */
  lemma {:induction false} StripBracketsKeepsPlain(p: string, t: string)
    requires Lacks(p, '[')
    ensures StripBrackets(p + t) == p + StripBrackets(t)
    decreases |p|
  {
    if p != [] {
      assert (p + t)[0] == p[0];
      assert (p + t)[1..] == p[1..] + t;
      StripBracketsKeepsPlain(p[1..], t);
    } else {
      assert p + t == t;
    }
  }

  /** Without any `] ` nothing matches. */
  lemma {:induction false} StripBracketsNoClose(t: string)
    requires !Contains(t, "] ")
    ensures StripBrackets(t) == t
    decreases |t|
  {
    if t != [] {
      assert LastInLine(t, 1, "] ", |t| - 2).None? by {
        forall k: nat | k <= |t| - 2 ensures !LineMatchAt(t, 1, "] ", k) {
          assert !OccursAt(t, "] ", k);
        }
      }
      assert !Contains(t[1..], "] ") by {
        ContainsTail(t, "] ");
      }
      StripBracketsNoClose(t[1..]);
    }
  }

  /** A group `[x] ` followed by text without `] ` is removed whole, however many brackets `x` holds. */
  lemma StripBracketsGroup(x: string, t: string)
    requires Lacks(x, '\n') && !Contains(t, "] ")
    ensures StripBrackets("[" + x + "] " + t) == t
  {
    var s := "[" + x + "] " + t;
    assert s[1..|x| + 1] == x;
    assert s[|x| + 1..|x| + 3] == "] ";
    assert s[|x| + 3..] == t;
    GroupClosesAt(s, |x| + 1, t, "] ");
    StripBracketsAt(s, |x| + 1);
    StripBracketsNoClose(t);
  }

  /** A `[` whose last closing is at `k` is removed up to and with that closing. */
  lemma StripBracketsAt(s: string, k: nat)
    requires s != [] && s[0] == '[' && LastInLine(s, 1, "] ", |s| - 2) == Some(k)
    ensures StripBrackets(s) == StripBrackets(s[k + 2..])
  {
  }

  /** A closing `sub` at `k` on the first line, with no `sub` after it, is the last closing. */
  lemma GroupClosesAt(s: string, k: nat, t: string, sub: string)
    requires sub == "] "
    requires 1 <= k && k + 2 <= |s| && s[k..k + 2] == sub && s[k + 2..] == t
    requires Lacks(s[1..k], '\n') && !Contains(t, sub)
    ensures LastInLine(s, 1, sub, |s| - 2) == Some(k)
  {
    assert LineMatchAt(s, 1, sub, k);
    NoCloseAfter(s, k, t);
    LastInLineIs(s, 1, sub, |s| - 2, k);
  }

  lemma NoCloseAfter(s: string, k: nat, t: string)
    requires 1 <= k && k + 2 <= |s| && s[k..k + 2] == "] " && s[k + 2..] == t
    requires !Contains(t, "] ")
    ensures forall m: nat | k < m <= |s| - 2 :: !OccursAt(s, "] ", m)
  {
    forall m: nat | k < m <= |s| - 2 ensures !OccursAt(s, "] ", m) {
      if m == k + 1 {
        assert s[m] == s[k..k + 2][1] == ' ';
        assert s[m..m + 2][0] == s[m];
      } else {
        assert s[m..m + 2] == t[m - k - 2..m - k];
        assert !OccursAt(t, "] ", m - k - 2);
      }
    }
  }

  /**
   * On a name with one group: everything from the first `[` to the last
   * `] ` goes, the text before and after stays.
   */
  lemma StripBracketsOneGroup(p: string, x: string, t: string)
    requires Lacks(p, '[') && Lacks(x, '\n') && !Contains(t, "] ")
    ensures StripBrackets(p + "[" + x + "] " + t) == p + t
  {
    assert p + "[" + x + "] " + t == p + ("[" + x + "] " + t);
    StripBracketsKeepsPlain(p, "[" + x + "] " + t);
    StripBracketsGroup(x, t);
  }

  /** `GPU Programming [V] [1. PG] (HWS 2020)` becomes `GPU Programming (HWS 2020)` (tests/test_addAllSemesterCourses.py:38-40). */
  lemma StripBracketsExample()
    ensures StripBrackets("GPU Programming " + "[V] [1. PG] " + "(HWS 2020)")
      == "GPU Programming " + "(HWS 2020)"
  {
    var p, x, t := "GPU Programming ", "V] [1. PG", "(HWS 2020)";
    assert Lacks(t, ']');
    NotContainsByChar(t, "] ", 0);
    assert Lacks(p, '[') && Lacks(x, '\n');
    var g := "[V] [1. PG] ";
    assert g == "[" + x + "] ";
    assert p + g + t == p + "[" + x + "] " + t;
    StripBracketsOneGroup(p, x, t);
  }

  // ---------------------------------------------------------------------------
  // addCourse and addAllSemesterCourses

  datatype Course = Course(name: string, url: string)

  /** A link of class `il_ContainerItemTitle` on the start page, and the title its course page shows. */
  datatype Anchor = Anchor(text: string, href: string, pageTitle: string)

  /**
   * The record `addCourse(refId, name)` appends, if any: a missing or empty
   * name is replaced by the title of the course page; the record is stored
   * only when the cleaned name is not empty.
   */
  function CourseEntry(refId: nat, name: Option<string>, pageTitle: string): (c: Option<Course>)
    ensures c.Some? ==> c.value.url == CreateIliasUrl(refId) && c.value.name != []
    ensures name.Some? && name.value != [] && name.value[0] != '[' ==> c.Some?
  {
    var raw := if name.None? || name.value == [] then pageTitle else name.value;
    var cleaned := StripBrackets(raw);
    if cleaned != [] then Some(Course(cleaned, CreateIliasUrl(refId))) else None
  }

  /** The course one start-page link contributes to `addAllSemesterCourses`. */
  function AnchorCourse(selects: string -> bool, a: Anchor, excluded: seq<nat>): (c: Option<Course>)
    ensures c.Some? ==> selects(a.text)
    ensures c.Some? ==> ExtractRefId(a.href).Some? && ExtractRefId(a.href).value !in excluded
    ensures c.Some? ==> c == CourseEntry(ExtractRefId(a.href).value, Some(a.text), a.pageTitle)
  {
    if !selects(a.text) then None
    else match ExtractRefId(a.href)
      case None => None
      case Some(refId) =>
        if refId in excluded then None else CourseEntry(refId, Some(a.text), a.pageTitle)
  }

  function Contribution(selects: string -> bool, a: Anchor, excluded: seq<nat>): (cs: seq<Course>)
    ensures |cs| <= 1
  {
    match AnchorCourse(selects, a, excluded)
    case Some(c) => [c]
    case None => []
  }

  /** The courses `addAllSemesterCourses(pattern, excluded)` appends, in document order. */
  function SemesterCourses(selects: string -> bool, anchors: seq<Anchor>, excluded: seq<nat>): (cs: seq<Course>)
    ensures |cs| <= |anchors|
  {
    if anchors == [] then []
    else Contribution(selects, anchors[0], excluded) + SemesterCourses(selects, anchors[1..], excluded)
  }

  /** The selection is made link by link: the courses of two runs of links are those of the whole run. */
  lemma {:induction false} SemesterCoursesConcat(selects: string -> bool, a: seq<Anchor>, b: seq<Anchor>, excluded: seq<nat>)
    ensures SemesterCourses(selects, a + b, excluded)
      == SemesterCourses(selects, a, excluded) + SemesterCourses(selects, b, excluded)
    decreases |a|
  {
    if a != [] {
      assert (a + b)[0] == a[0];
      assert (a + b)[1..] == a[1..] + b;
      SemesterCoursesConcat(selects, a[1..], b, excluded);
      AppendAssoc(Contribution(selects, a[0], excluded), SemesterCourses(selects, a[1..], excluded), SemesterCourses(selects, b, excluded));
    } else {
      assert a + b == b;
      AppendEmpty(SemesterCourses(selects, b, excluded));
    }
  }

  /** One more link appends what that link contributes. */
  lemma SemesterCoursesSnoc(selects: string -> bool, a: seq<Anchor>, x: Anchor, excluded: seq<nat>)
    ensures SemesterCourses(selects, a + [x], excluded)
      == SemesterCourses(selects, a, excluded) + Contribution(selects, x, excluded)
  {
    SemesterCoursesConcat(selects, a, [x], excluded);
    assert SemesterCourses(selects, [x], excluded) == Contribution(selects, x, excluded) + SemesterCourses(selects, [], excluded);
  }

  /**
   * A link adds a course exactly when its text is selected, its href holds a
   * ref id, the id is not excluded and the cleaned name is not empty; the
   * stored URL is the course URL of that id.
   */
  lemma AnchorCourseExactly(selects: string -> bool, a: Anchor, excluded: seq<nat>)
    ensures AnchorCourse(selects, a, excluded).Some? <==>
      && selects(a.text)
      && ExtractRefId(a.href).Some?
      && ExtractRefId(a.href).value !in excluded
      && StripBrackets(if a.text == [] then a.pageTitle else a.text) != []
    ensures AnchorCourse(selects, a, excluded).Some? ==>
      AnchorCourse(selects, a, excluded).value ==
        Course(StripBrackets(if a.text == [] then a.pageTitle else a.text), CreateIliasUrl(ExtractRefId(a.href).value))
  {
  }

  /** Every stored course URL gives back a ref id that is not excluded, and is scanned as a folder. */
  lemma {:induction false} SemesterCoursesValid(selects: string -> bool, anchors: seq<Anchor>, excluded: seq<nat>)
    ensures forall c | c in SemesterCourses(selects, anchors, excluded) ::
      && c.name != []
      && ExtractRefId(c.url).Some?
      && ExtractRefId(c.url).value !in excluded
      && Classify.DetermineItemType(c.url) == Classify.Folder
    decreases |anchors|
  {
    if anchors != [] {
      SemesterCoursesValid(selects, anchors[1..], excluded);
      var head := AnchorCourse(selects, anchors[0], excluded);
      if head.Some? {
        var refId := ExtractRefId(anchors[0].href).value;
        ExtractRefIdOfCreateIliasUrl(refId);
        Classify.CourseUrlIsFolder(refId);
      }
    }
  }

  /** An excluded id never yields a course, whatever else the link says. */
  lemma ExcludedNeverAdded(selects: string -> bool, a: Anchor, excluded: seq<nat>)
    requires ExtractRefId(a.href).Some? && ExtractRefId(a.href).value in excluded
    ensures SemesterCourses(selects, [a], excluded) == []
  {
  }
}
