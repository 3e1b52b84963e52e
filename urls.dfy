/**
 * The portal's URLs: the base address, `createIliasUrl`, the search for
 * `ref_id=(\d+)` done by `addAllSemesterCourses`, and `urljoin` against the
 * base address.
 */
module Urls {
  import opened Wrappers
  import opened Text
  import opened Numbers

  const BaseUrl: string := "https://ilias.uni-mannheim.de/"

  /** The part of a course URL after the ref id (IliasDL.py:90-91). */
  const CourseUrlTail: string :=
    "&" + ("cmd=frameset" + ("&" + ("cmdClass=ilrepositorygui" + ("&" + ("cmdNode=vi" + ("&" + "baseClass=ilrepositorygui"))))))

  /** `createIliasUrl(iliasid)`: the repository view of a ref id. */
  function CreateIliasUrl(refId: nat): (url: string)
    ensures HasPrefix(url, BaseUrl)
  {
    BaseUrl + "ilias.php?ref_id=" + NatToString(refId) + CourseUrlTail
  }

  /**
   * `re.search(r"ref_id=(\d+)", s)` followed by `int(match.group(1))`: the
   * leftmost `ref_id=` that is followed by a digit, and the value of the
   * longest run of digits after it; `None` when there is no match.
   */
  function ExtractRefId(s: string): (r: Option<nat>)
    ensures r.Some? ==> Contains(s, "ref_id=")
    decreases |s|
  {
    if HasPrefix(s, "ref_id=") && |s| > 7 && IsDigit(s[7]) then
      ContainsPrefix(s, "ref_id=");
      var digits := s[7..];
      Some(DigitsValue(digits[..DigitRun(digits)]))
    else if s == [] then None
    else
      ContainsTail(s, "ref_id=");
      ExtractRefId(s[1..])
  }

  /** `ref_id=` followed by a digit starts at index `i` of `s`: where `re.search` can match. */
  predicate MatchAt(s: string, i: int) {
    OccursAt(s, "ref_id=", i) && i + 7 < |s| && IsDigit(s[i + 7])
  }

  /** The value `int(match.group(1))` of a match at `i`: the whole run of digits after `ref_id=`. */
  function RefIdAt(s: string, i: int): nat
    requires MatchAt(s, i)
  {
    var digits := s[i + 7..];
    DigitsValue(digits[..DigitRun(digits)])
  }

  /** `i` is the leftmost match in `s`. */
  predicate FirstMatch(s: string, i: int) {
    MatchAt(s, i) && forall j | 0 <= j < i :: !MatchAt(s, j)
  }

  /** The test `ExtractRefId` makes at the head of `s` is a match at index 0. */
  lemma MatchAtHead(s: string)
    ensures MatchAt(s, 0) <==> HasPrefix(s, "ref_id=") && |s| > 7 && IsDigit(s[7])
  {
  }

  /** Dropping the first character moves every later match one place to the left. */
  lemma MatchAtTail(s: string, i: int)
    requires s != [] && 1 <= i
    ensures MatchAt(s, i) <==> MatchAt(s[1..], i - 1)
    ensures MatchAt(s, i) ==> RefIdAt(s, i) == RefIdAt(s[1..], i - 1)
  {
    if i + 7 <= |s| {
      assert s[1..][i - 1..i - 1 + 7] == s[i..i + 7];
    }
    if i + 7 < |s| {
      assert s[1..][i - 1 + 7..] == s[i + 7..];
    }
  }

  /** With a match at `i` and none before it, the result is the ref id at `i`. */
  lemma {:induction false} ExtractRefIdLeftmost(s: string, i: int)
    requires FirstMatch(s, i)
    ensures ExtractRefId(s) == Some(RefIdAt(s, i))
    decreases i
  {
    MatchAtHead(s);
    if i > 0 {
      assert !MatchAt(s, 0);
      forall j | 0 <= j < i - 1
        ensures !MatchAt(s[1..], j)
      {
        MatchAtTail(s, j + 1);
      }
      MatchAtTail(s, i);
      ExtractRefIdLeftmost(s[1..], i - 1);
    }
  }

  /** A result is always the ref id of the leftmost match. */
  lemma {:induction false} ExtractRefIdIsLeftmost(s: string)
    ensures ExtractRefId(s).Some? ==> exists i | 0 <= i < |s| :: FirstMatch(s, i) && ExtractRefId(s).value == RefIdAt(s, i)
    decreases |s|
  {
    MatchAtHead(s);
    if ExtractRefId(s).Some? {
      if MatchAt(s, 0) {
        assert FirstMatch(s, 0);
      } else {
        ExtractRefIdIsLeftmost(s[1..]);
        var k :| 0 <= k < |s[1..]| && FirstMatch(s[1..], k) && ExtractRefId(s[1..]).value == RefIdAt(s[1..], k);
        MatchAtTail(s, k + 1);
        forall j | 0 <= j < k + 1
          ensures !MatchAt(s, j)
        {
          if j > 0 { MatchAtTail(s, j); }
        }
        assert FirstMatch(s, k + 1);
      }
    }
  }

  /** `re.search(r"ref_id=(\d+)", s)` finds something exactly when some index starts a match. */
  lemma ExtractRefIdSomeIff(s: string)
    ensures ExtractRefId(s).Some? <==> exists i | 0 <= i < |s| :: MatchAt(s, i)
  {
    ExtractRefIdIsLeftmost(s);
    if ExtractRefId(s).None? {
      forall i | 0 <= i < |s| && MatchAt(s, i)
        ensures false
      {
        ExtractRefIdOfMatch(s, i);
      }
    }
  }

  /** A match anywhere means the search succeeds (at the leftmost match at or before `i`). */
  lemma {:induction false} ExtractRefIdOfMatch(s: string, i: int)
    requires MatchAt(s, i)
    ensures ExtractRefId(s).Some?
    decreases i
  {
    if exists j | 0 <= j < i :: MatchAt(s, j) {
      var j :| 0 <= j < i && MatchAt(s, j);
      ExtractRefIdOfMatch(s, j);
    } else {
      ExtractRefIdLeftmost(s, i);
    }
  }

  /** A ref id right at the start is read in full, up to the first non-digit. */
  lemma ExtractRefIdHere(d: string, rest: string)
    requires d != [] && AllDigits(d)
    requires rest == [] || !IsDigit(rest[0])
    ensures ExtractRefId("ref_id=" + d + rest) == Some(DigitsValue(d))
  {
    var s := "ref_id=" + d + rest;
    assert s[..7] == "ref_id=";
    assert s[7] == d[0];
    assert s[7..] == d + rest;
    DigitRunOf(d, rest);
    assert (d + rest)[..|d|] == d;
  }

  /** A prefix without `=` cannot hold the start of a match. */
  lemma {:induction false} ExtractRefIdSkip(p: string, t: string)
    requires Lacks(p, '=')
    requires |t| >= 6 && Lacks(t[..6], '=')
    ensures ExtractRefId(p + t) == ExtractRefId(t)
    decreases |p|
  {
    if p != [] {
      var s := p + t;
      if |p| > 6 {
        assert s[6] == p[6];
      } else {
        assert s[6] == t[6 - |p|] == t[..6][6 - |p|];
      }
      assert !HasPrefix(s, "ref_id=") by {
        if |s| >= 7 {
          assert s[..7][6] == s[6] != '=';
        }
      }
      assert s[1..] == p[1..] + t;
      ExtractRefIdSkip(p[1..], t);
    } else {
      assert p + t == t;
    }
  }

  /** The ref id can be read back from the URL built for it. */
  lemma {:induction false} ExtractRefIdOfCreateIliasUrl(refId: nat)
    ensures ExtractRefId(CreateIliasUrl(refId)) == Some(refId)
  {
    var d := NatToString(refId);
    var p := BaseUrl + "ilias.php?";
    var t := "ref_id=" + d + CourseUrlTail;
    assert CreateIliasUrl(refId) == p + t;
    assert Lacks(BaseUrl, '=') && Lacks("ilias.php?", '=');
    LacksConcat(BaseUrl, "ilias.php?", '=');
    assert t[..6] == "ref_id";
    ExtractRefIdSkip(p, t);
    assert CourseUrlTail[0] == '&';
    ExtractRefIdHere(d, CourseUrlTail);
    DigitsValueOfNatToString(refId);
  }

  predicate IsAbsolute(url: string) {
    HasPrefix(url, "http://") || HasPrefix(url, "https://")
  }

  /**
   * `urljoin(base_url, ref)` for the portal's root address: absolute URLs are
   * kept, `./x`, `/x` and `x` are resolved below the root.
   */
  function JoinBase(ref: string): (url: string)
    ensures IsAbsolute(url)
    ensures IsAbsolute(ref) ==> url == ref
  {
    if IsAbsolute(ref) then ref
    else if HasPrefix(ref, "./") then BaseUrl + ref[2..]
    else if HasPrefix(ref, "/") then BaseUrl + ref[1..]
    else
      assert (BaseUrl + ref)[..8] == "https://";
      BaseUrl + ref
  }

  /** Joining an already joined URL changes nothing (`scanFolder` joins the URLs of `to_scan` again). */
  lemma JoinBaseIdempotent(ref: string)
    ensures JoinBase(JoinBase(ref)) == JoinBase(ref)
  {
  }

  /** A reference `./x` lands at `x` below the base address. */
  lemma JoinBaseDot(ref: string)
    requires HasPrefix(ref, "./")
    ensures JoinBase(ref) == BaseUrl + ref[2..]
  {
    assert ref[0] == '.';
    assert !IsAbsolute(ref) by {
      if |ref| >= 7 { assert ref[..7][0] == '.'; }
      if |ref| >= 8 { assert ref[..8][0] == '.'; }
    }
  }

  /** A relative reference lands below the base address. */
  lemma JoinBaseRelative(ref: string)
    requires !IsAbsolute(ref) && !HasPrefix(ref, "./") && !HasPrefix(ref, "/")
    ensures JoinBase(ref) == BaseUrl + ref
  {
  }
}
