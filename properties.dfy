/**
 * `_parseFileProperties` of IliasDL.py: the texts of the `il_ItemProperty`
 * spans of a file entry are filtered, then read by position as file
 * extension, size and modification date.
 */
module FileProperties {
  import opened Wrappers
  import opened Text
  import opened Numbers
  import opened Seqs

  /** The modification date: the text handed to the date parser, or the fixed date 2000-01-01. */
  datatype ModDate = Sentinel | Parsed(text: string)

  /** The triple `(file_ending, size, mod_date)`; a size of `None` stands for `math.nan`. */
  datatype Properties = Properties(ending: string, size: Option<real>, modDate: ModDate)

  /** The exception `_parseFileProperties` raises. */
  datatype PropError =
    | NoSlots           // `p[0]` on an empty list
    | SizeTokenMissing  // `size_tmp[0]` on an empty list
    | SizeNotANumber    // `float(size_tmp[0])` raises
    | SizeUnitMissing   // `size_tmp[1]` on a list of one token

  /** A slot survives the filter when it has a word and does not contain `Version`. */
  predicate Kept(t: string) {
    Split(t) != [] && !Contains(t, "Version")
  }

  /** `[i for i in props if len(i.text.split()) > 0 and "Version" not in i.text]`. */
  function KeptSlots(slots: seq<string>): (p: seq<string>)
    ensures |p| <= |slots|
    ensures forall k | 0 <= k < |p| :: Kept(p[k])
  {
    if slots == [] then []
    else (if Kept(slots[0]) then [slots[0]] else []) + KeptSlots(slots[1..])
  }

  lemma {:induction false} KeptSlotsConcat(a: seq<string>, b: seq<string>)
    ensures KeptSlots(a + b) == KeptSlots(a) + KeptSlots(b)
    decreases |a|
  {
    if a != [] {
      ConsConcat(a, b);
      KeptSlotsConcat(a[1..], b);
      AppendAssoc(if Kept(a[0]) then [a[0]] else [], KeptSlots(a[1..]), KeptSlots(b));
    } else {
      AppendEmpty(b);
      AppendEmpty(KeptSlots(b));
    }
  }

  /** The extension read from the first kept slot: `"." + word` for one word, `""` for several. */
  function Ending(first: string): (e: string)
    requires Split(first) != []
    ensures e == [] <==> |Split(first)| > 1
    ensures e != [] ==> e[0] == '.' && NoSpace(e)
    ensures |Split(first)| == 1 ==> e == "." + Split(first)[0]
  {
    var words := Split(first);
    if |words| > 1 then [] else "." + words[0]
  }

  /** `p[1].text.lower().replace(".", "").replace(",", ".")`: `.` groups thousands, `,` is the decimal point. */
  function NormalizedSize(slot: string): string {
    Replace(Replace(Lower(slot), ".", ""), ",", ".")
  }

  /** The tokens of the size slot. */
  function SizeTokens(slot: string): seq<string> {
    Split(NormalizedSize(slot))
  }

  /** The size for the unit token: kilobytes and bytes are turned into megabytes, any other unit is kept. */
  function ToMegabytes(v: real, unit: string): (mb: real)
    ensures v >= 0.0 ==> 0.0 <= mb <= v
  {
    if unit == "kb" then v * 0.001
    else if unit == "bytes" then v * 0.000001
    else v
  }

  /** The size in megabytes read from the second kept slot, failing as Python does. */
  function ParseSize(slot: string): Result<real, PropError> {
    var tokens := SizeTokens(slot);
    if tokens == [] then Err(SizeTokenMissing)
    else match ParseFloat(tokens[0])
      case None => Err(SizeNotANumber)
      case Some(v) =>
        if |tokens| < 2 then Err(SizeUnitMissing) else Ok(ToMegabytes(v, tokens[1]))
  }

  /** `_parseFileProperties(bs_item)` on the texts of the property spans, in document order. */
  function ParseFileProperties(slots: seq<string>): (r: Result<Properties, PropError>)
    ensures r == Err(NoSlots) <==> KeptSlots(slots) == []
  {
    var p := KeptSlots(slots);
    if p == [] then Err(NoSlots)
    else
      var ending := Ending(p[0]);
      var modDate := if |p| > 2 then Parsed(p[2]) else Sentinel;
      if |p| > 1 then
        match ParseSize(p[1])
        case Err(e) => Err(e)
        case Ok(v) => Ok(Properties(ending, Some(v), modDate))
      else Ok(Properties(ending, None, modDate))
  }

  /**
   * What the properties are made of: the extension from the first kept slot,
   * the size from the second (or its error), the date from the third.
   */
  lemma ParsedFromKeptSlots(slots: seq<string>)
    ensures var r := ParseFileProperties(slots);
      && (r.Ok? ==> (r.value.ending == [] <==> |Split(KeptSlots(slots)[0])| > 1))
      && (r.Ok? ==> (r.value.size.None? <==> |KeptSlots(slots)| < 2))
      && (r.Ok? ==> (r.value.modDate == Sentinel <==> |KeptSlots(slots)| < 3))
      && (r.Ok? && |KeptSlots(slots)| >= 3 ==> r.value.modDate == Parsed(KeptSlots(slots)[2]))
      && (r.Err? && r != Err(NoSlots) ==> |KeptSlots(slots)| >= 2 && ParseSize(KeptSlots(slots)[1]) == Err(r.error))
    ensures var r := ParseFileProperties(slots); var p := KeptSlots(slots);
      && (r.Ok? ==> r.value.ending == Ending(p[0]))
      && (r.Ok? && |p| >= 2 ==> r.value.size.Some? && ParseSize(p[1]) == Ok(r.value.size.value))
      && (|p| >= 2 && ParseSize(p[1]).Err? ==> r == Err(ParseSize(p[1]).error))
  {
  }

  /**
   * A slot the filter drops (only spaces, or a `Version` line) can stand
   * anywhere without shifting size or date.
   */
  lemma DroppedSlotIgnored(a: seq<string>, v: string, b: seq<string>)
    requires !Kept(v)
    ensures ParseFileProperties(a + [v] + b) == ParseFileProperties(a + b)
  {
    KeptSlotsConcat(a + [v], b);
    KeptSlotsConcat(a, [v]);
    KeptSlotsConcat(a, b);
    assert KeptSlots([v]) == [];
    assert KeptSlots(a + [v]) == KeptSlots(a);
  }

  /** Once three slots are kept, later slots (such as an availability line) are ignored. */
  lemma TrailingSlotsIgnored(a: seq<string>, b: seq<string>)
    requires |KeptSlots(a)| >= 3
    ensures ParseFileProperties(a + b) == ParseFileProperties(a)
  {
    KeptSlotsConcat(a, b);
    var p, q := KeptSlots(a), KeptSlots(a + b);
    assert q[0] == p[0] && q[1] == p[1] && q[2] == p[2];
  }

  // ---------------------------------------------------------------------------
  // Reading the size of a slot

  lemma LowerOfDigits(d: string)
    requires AllDigits(d)
    ensures Lower(d) == d
  {
    LowerFixed(d);
  }

  lemma NoSpaceOfDigits(d: string)
    requires AllDigits(d)
    ensures NoSpace(d)
  {
  }

  lemma LowerPieces(w1: string, number: string, unit: string, w2: string)
    requires AllSpace(w1) && AllSpace(w2)
    requires Lower(number) == number
    ensures Lower(w1 + number + " " + unit + w2) == w1 + number + " " + Lower(unit) + w2
  {
    LowerOfSpaces(w1);
    LowerOfSpaces(w2);
    assert Lower(" ") == " ";
    LowerConcat(w1, number);
    LowerConcat(w1 + number, " ");
    LowerConcat(w1 + number + " ", unit);
    LowerConcat(w1 + number + " " + unit, w2);
  }

  lemma DotFree(w1: string, number: string, u: string, w2: string)
    requires AllSpace(w1) && AllSpace(w2)
    requires Lacks(number, '.') && Lacks(u, '.')
    ensures Replace(w1 + number + " " + u + w2, ".", "") == w1 + number + " " + u + w2
  {
    var l := w1 + number + " " + u + w2;
    assert Lacks(w1, '.') && Lacks(w2, '.') && Lacks(" ", '.');
    LacksConcat(w1, number, '.');
    LacksConcat(w1 + number, " ", '.');
    LacksConcat(w1 + number + " ", u, '.');
    LacksConcat(w1 + number + " " + u, w2, '.');
    NotContainsByChar(l, ".", 0);
    ReplaceAbsent(l, ".", "");
  }

  lemma CommaPieces(w1: string, number: string, u: string, w2: string)
    requires AllSpace(w1) && AllSpace(w2)
    requires Lacks(u, ',')
    ensures Replace(w1 + number + " " + u + w2, ",", ".") == w1 + Subst(number, ',', ".") + " " + u + w2
  {
    var l := w1 + number + " " + u + w2;
    assert "," == [','];
    ReplaceOneChar(l, ',', ".");
    assert Lacks(w1, ',') && Lacks(w2, ',') && Lacks(" ", ',');
    SubstConcat(w1 + number + " " + u, w2, ',', ".");
    SubstConcat(w1 + number + " ", u, ',', ".");
    SubstConcat(w1 + number, " ", ',', ".");
    SubstConcat(w1, number, ',', ".");
    SubstAbsent(w1, ',', ".");
    SubstAbsent(" ", ',', ".");
    SubstAbsent(u, ',', ".");
    SubstAbsent(w2, ',', ".");
  }

  /** The slot `w1 + number + " " + unit + w2` after `lower()` and the two replacements. */
  lemma NormalizedSizeOf(w1: string, number: string, unit: string, w2: string)
    requires AllSpace(w1) && AllSpace(w2)
    requires Lower(number) == number && Lacks(number, '.')
    requires Lacks(Lower(unit), '.') && Lacks(Lower(unit), ',')
    ensures NormalizedSize(w1 + number + " " + unit + w2)
      == w1 + Subst(number, ',', ".") + " " + Lower(unit) + w2
  {
    LowerPieces(w1, number, unit, w2);
    DotFree(w1, number, Lower(unit), w2);
    CommaPieces(w1, number, Lower(unit), w2);
  }

  /** A slot whose normalized text is one number and one unit reads as that number times the unit's factor. */
  lemma ParseSizeOfTokens(slot: string, x: string, u: string, v: real)
    requires SizeTokens(slot) == [x, u] && ParseFloat(x) == Some(v)
    ensures ParseSize(slot) == Ok(ToMegabytes(v, u))
  {
    var tokens := SizeTokens(slot);
    assert tokens != [] && tokens[0] == x && |tokens| == 2 && tokens[1] == u;
  }

  lemma DecimalNumber(i: string, f: string)
    requires AllDigits(i) && AllDigits(f)
    ensures Lower(i + "," + f) == i + "," + f && Lacks(i + "," + f, '.')
    ensures Subst(i + "," + f, ',', ".") == i + "." + f
    ensures NoSpace(i + "." + f)
  {
    DecimalLower(i, f);
    DecimalSubst(i, f);
    DecimalNoSpace(i, f);
  }

  lemma DecimalLower(i: string, f: string)
    requires AllDigits(i) && AllDigits(f)
    ensures Lower(i + "," + f) == i + "," + f && Lacks(i + "," + f, '.')
  {
    LowerOfDigits(i);
    LowerOfDigits(f);
    assert Lower(",") == ",";
    LowerConcat(i, ",");
    LowerConcat(i + ",", f);
    assert Lacks(i, '.') && Lacks(f, '.') && Lacks(",", '.');
    LacksConcat(i, ",", '.');
    LacksConcat(i + ",", f, '.');
  }

  lemma DecimalSubst(i: string, f: string)
    requires AllDigits(i) && AllDigits(f)
    ensures Subst(i + "," + f, ',', ".") == i + "." + f
  {
    assert Lacks(i, ',') && Lacks(f, ',');
    SubstConcat(i + ",", f, ',', ".");
    SubstConcat(i, ",", ',', ".");
    SubstAbsent(i, ',', ".");
    SubstAbsent(f, ',', ".");
    assert Subst(",", ',', ".") == ".";
  }

  lemma DecimalNoSpace(i: string, f: string)
    requires AllDigits(i) && AllDigits(f)
    ensures NoSpace(i + "." + f)
  {
    var x := i + "." + f;
    forall k | 0 <= k < |x| ensures !IsSpace(x[k]) {
      if k < |i| { assert x[k] == i[k]; }
      else if k > |i| { assert x[k] == f[k - |i| - 1]; }
    }
  }

  /** `"i,f unit"` becomes the tokens `i.f` and the lower-case unit. */
  lemma SizeTokensDecimal(w1: string, i: string, f: string, unit: string, w2: string)
    requires AllSpace(w1) && AllSpace(w2)
    requires AllDigits(i) && AllDigits(f) && |i| + |f| > 0
    requires Lower(unit) != [] && NoSpace(Lower(unit))
    requires Lacks(Lower(unit), '.') && Lacks(Lower(unit), ',')
    ensures SizeTokens(w1 + i + "," + f + " " + unit + w2) == [i + "." + f, Lower(unit)]
  {
    var number := i + "," + f;
    DecimalNumber(i, f);
    NormalizedSizeOf(w1, number, unit, w2);
    assert w1 + i + "," + f + " " + unit + w2 == w1 + number + " " + unit + w2;
    SplitPadded2(w1, i + "." + f, " ", Lower(unit), w2);
  }

  /** `"i,f unit"` reads as the decimal `i.f` scaled by the unit. */
  lemma ParseSizeDecimal(w1: string, i: string, f: string, unit: string, w2: string)
    requires AllSpace(w1) && AllSpace(w2)
    requires AllDigits(i) && AllDigits(f) && |i| + |f| > 0
    requires Lower(unit) != [] && NoSpace(Lower(unit))
    requires Lacks(Lower(unit), '.') && Lacks(Lower(unit), ',')
    ensures ParseSize(w1 + i + "," + f + " " + unit + w2) == Ok(ToMegabytes(DecimalValue(i, f), Lower(unit)))
  {
    SizeTokensDecimal(w1, i, f, unit, w2);
    ParseFloatOfDecimal(i, f);
    ParseSizeOfTokens(w1 + i + "," + f + " " + unit + w2, i + "." + f, Lower(unit), DecimalValue(i, f));
  }

  /** `"d unit"` becomes the tokens `d` and the lower-case unit. */
  lemma SizeTokensInteger(w1: string, d: string, unit: string, w2: string)
    requires AllSpace(w1) && AllSpace(w2)
    requires d != [] && AllDigits(d)
    requires Lower(unit) != [] && NoSpace(Lower(unit))
    requires Lacks(Lower(unit), '.') && Lacks(Lower(unit), ',')
    ensures SizeTokens(w1 + d + " " + unit + w2) == [d, Lower(unit)]
  {
    LowerOfDigits(d);
    assert Lacks(d, '.') && Lacks(d, ',');
    NormalizedSizeOf(w1, d, unit, w2);
    SubstAbsent(d, ',', ".");
    NoSpaceOfDigits(d);
    SplitPadded2(w1, d, " ", Lower(unit), w2);
  }

  /** `"d unit"` reads as the integer `d` scaled by the unit. */
  lemma ParseSizeInteger(w1: string, d: string, unit: string, w2: string)
    requires AllSpace(w1) && AllSpace(w2)
    requires d != [] && AllDigits(d)
    requires Lower(unit) != [] && NoSpace(Lower(unit))
    requires Lacks(Lower(unit), '.') && Lacks(Lower(unit), ',')
    ensures ParseSize(w1 + d + " " + unit + w2) == Ok(ToMegabytes(DigitsValue(d) as real, Lower(unit)))
  {
    SizeTokensInteger(w1, d, unit, w2);
    ParseFloatOfDigits(d);
    ParseSizeOfTokens(w1 + d + " " + unit + w2, d, Lower(unit), DigitsValue(d) as real);
  }

  // ---------------------------------------------------------------------------
  // The entries of tests/test_parseFileProperties.py

  /** What a span holds around its text: a line break and tabs before, two no-break spaces after. */
  const Before: string := "\n\t\t\n\t\t"
  const After: string := "\U{A0}\U{A0}"

  function Slot(text: string): string {
    Before + text + After
  }

  lemma PaddingIsSpace()
    ensures AllSpace(Before) && AllSpace(After)
    ensures Lacks(Before, 'V') && Lacks(After, 'V')
  {
  }

  /** A slot whose text lacks `V` and starts with a non-space is kept. */
  lemma SlotKept(text: string)
    requires text != [] && !IsSpace(text[0]) && Lacks(text, 'V')
    ensures Kept(Slot(text))
  {
    PaddingIsSpace();
    var s := Slot(text);
    assert s[|Before|] == text[0];
    assert !AllSpace(s);
    LacksConcat(Before, text, 'V');
    LacksConcat(Before + text, After, 'V');
    NotContainsByChar(s, "Version", 0);
  }

  /** A slot with a `Version` line is dropped. */
  lemma VersionSlotDropped(rest: string)
    ensures !Kept(Slot("Version" + rest))
  {
    var s := Slot("Version" + rest);
    assert s[|Before|..|Before| + 7] == "Version";
    assert OccursAt(s, "Version", |Before|);
  }

  /** `pdf` gives `.pdf`. */
  lemma EndingOfWord(w: string)
    requires w != [] && NoSpace(w)
    ensures Split(Slot(w)) == [w]
  {
    PaddingIsSpace();
    SplitPadded(Before, w, After);
  }

  lemma KbIsLower()
    ensures Lower("KB") == "kb" && Lower("Bytes") == "bytes"
  {
  }

  lemma DigitValues()
    ensures DigitsValue("287") == 287 && DigitsValue("3") == 3
    ensures DigitsValue("903") == 903 && DigitsValue("1") == 1
    ensures DigitsValue("500") == 500 && DigitsValue("8") == 8
    ensures DigitsValue("739") == 739
  {
    assert DigitsValue("2") == 2 && DigitsValue("28") == 28 by { assert "28"[..1] == "2"; }
    assert "287"[..2] == "28";
    assert DigitsValue("9") == 9 && DigitsValue("90") == 90 by { assert "90"[..1] == "9"; }
    assert "903"[..2] == "90";
    assert DigitsValue("5") == 5 && DigitsValue("50") == 50 by { assert "50"[..1] == "5"; }
    assert "500"[..2] == "50";
    assert DigitsValue("7") == 7 && DigitsValue("73") == 73 by { assert "73"[..1] == "7"; }
    assert "739"[..2] == "73";
  }

  /** The size slot `i,f KB` is kept and reads as `i.f` kilobytes. */
  lemma KbSlot(i: string, f: string)
    requires i != [] && AllDigits(i) && AllDigits(f)
    ensures ParseSize(Slot(i + "," + f + " " + "KB")) == Ok(ToMegabytes(DecimalValue(i, f), "kb"))
    ensures Kept(Slot(i + "," + f + " " + "KB"))
  {
    KbSize(i, f);
    KbTextKept(i, f);
  }

  lemma KbSize(i: string, f: string)
    requires i != [] && AllDigits(i) && AllDigits(f)
    ensures ParseSize(Slot(i + "," + f + " " + "KB")) == Ok(ToMegabytes(DecimalValue(i, f), "kb"))
  {
    KbPadded(i, f);
    KbSlotText(i, f);
  }

  lemma KbPadded(i: string, f: string)
    requires i != [] && AllDigits(i) && AllDigits(f)
    ensures ParseSize(Before + i + "," + f + " " + "KB" + After) == Ok(ToMegabytes(DecimalValue(i, f), "kb"))
  {
    PaddingIsSpace();
    KbIsLower();
    assert NoSpace("kb") && Lacks("kb", '.') && Lacks("kb", ',');
    ParseSizeDecimal(Before, i, f, "KB", After);
  }

  lemma KbSlotText(i: string, f: string)
    ensures Slot(i + "," + f + " " + "KB") == Before + i + "," + f + " " + "KB" + After
  {
  }

  lemma KbTextKept(i: string, f: string)
    requires i != [] && AllDigits(i) && AllDigits(f)
    ensures Kept(Slot(i + "," + f + " " + "KB"))
  {
    var text := i + "," + f + " " + "KB";
    assert text[0] == i[0];
    assert Lacks(text, 'V') by {
      assert Lacks(i, 'V') && Lacks(f, 'V') && Lacks(",", 'V') && Lacks(" " + "KB", 'V');
      LacksConcat(i, ",", 'V');
      LacksConcat(i + ",", f, 'V');
      LacksConcat(i + "," + f, " " + "KB", 'V');
      assert text == i + "," + f + (" " + "KB");
    }
    SlotKept(text);
  }

  /** `KeptSlots` keeps three slots that each pass the filter. */
  lemma KeptThree(a: string, b: string, c: string)
    requires Kept(a) && Kept(b) && Kept(c)
    ensures KeptSlots([a, b, c]) == [a, b, c]
  {
    DisplayTails(a, b, c);
    assert KeptSlots([c]) == [c] + KeptSlots([]);
    AppendEmpty([c]);
    assert KeptSlots([b, c]) == [b] + KeptSlots([c]);
    Display11(b, c);
    assert KeptSlots([a, b, c]) == [a] + KeptSlots([b, c]);
    Display12(a, b, c);
  }

  /** Three kept slots: a one-word extension, a readable size, a date. */
  lemma ParseThree(a: string, b: string, c: string, w: string, v: real)
    requires Kept(a) && Kept(b) && Kept(c)
    requires Split(a) == [w] && ParseSize(b) == Ok(v)
    ensures ParseFileProperties([a, b, c]) == Ok(Properties("." + w, Some(v), Parsed(c)))
  {
    KeptThree(a, b, c);
  }

  /** The three slots of a file entry: extension, size in KB, date. */
  lemma ThreeSlots(ext: string, i: string, f: string, date: string)
    requires ext != [] && NoSpace(ext) && Lacks(ext, 'V')
    requires i != [] && AllDigits(i) && AllDigits(f)
    requires date != [] && !IsSpace(date[0]) && Lacks(date, 'V')
    ensures ParseFileProperties([Slot(ext), Slot(i + "," + f + " " + "KB"), Slot(date)])
      == Ok(Properties("." + ext, Some(ToMegabytes(DecimalValue(i, f), "kb")), Parsed(Slot(date))))
  {
    SlotKept(ext);
    KbSlot(i, f);
    SlotKept(date);
    EndingOfWord(ext);
    ParseThree(Slot(ext), Slot(i + "," + f + " " + "KB"), Slot(date), ext, ToMegabytes(DecimalValue(i, f), "kb"));
  }

  lemma ThreeItemsSize()
    ensures ToMegabytes(DecimalValue("287", "3"), "kb") == 0.2873
  {
    DigitValues();
  }

  lemma VersionSize()
    ensures ToMegabytes(DecimalValue("903", "1"), "kb") == 0.9031
  {
    DigitValues();
  }

  lemma AvailabilitySize()
    ensures ToMegabytes(DecimalValue("500", "8"), "kb") == 0.5008
  {
    DigitValues();
  }

  lemma BytesValue(d: string)
    requires d == "739"
    ensures ToMegabytes(DigitsValue(d) as real, "bytes") == 0.000739
  {
    DigitValues();
  }

  /** tests/test_parseFileProperties.py:114-116: `tar.gz`, `287,3 KB`, a date. */
  lemma ThreeItemsExample(ext: string, date: string)
    requires ext == "tar.gz" && date == "17. Sep 2020, 14:59"
    ensures ParseFileProperties([Slot(ext), Slot("287" + "," + "3" + " " + "KB"), Slot(date)])
      == Ok(Properties("." + ext, Some(0.2873), Parsed(Slot(date))))
  {
    ThreeItemsSize();
    ThreeSlots(ext, "287", "3", date);
  }

  /** A `Version` slot after the first two slots is dropped. */
  lemma VersionDropped(x: string, y: string, rest: string, b: seq<string>)
    ensures ParseFileProperties([x, y, Slot("Version" + rest)] + b) == ParseFileProperties([x, y] + b)
  {
    VersionSlotDropped(rest);
    DroppedThird(x, y, Slot("Version" + rest), b);
  }

  /** A dropped third slot is ignored. */
  lemma DroppedThird(x: string, y: string, v: string, b: seq<string>)
    requires !Kept(v)
    ensures ParseFileProperties([x, y, v] + b) == ParseFileProperties([x, y] + b)
  {
    DroppedSlotIgnored([x, y], v, b);
    Display21(x, y, v);
  }

  /** tests/test_parseFileProperties.py:118-120: a `Version` slot between size and date does not shift the date. */
  lemma VersionExample(ext: string, rest: string, date: string)
    requires ext == "pdf" && rest == ": 2" && date == "31. Aug 2020, 14:57"
    ensures ParseFileProperties([Slot(ext), Slot("903" + "," + "1" + " " + "KB"), Slot("Version" + rest), Slot(date)])
      == Ok(Properties("." + ext, Some(0.9031), Parsed(Slot(date))))
  {
    VersionSize();
    ThreeSlots(ext, "903", "1", date);
    var e0, e1, v, d := Slot(ext), Slot("903" + "," + "1" + " " + "KB"), Slot("Version" + rest), Slot(date);
    VersionDropped(e0, e1, rest, [d]);
    Display31(e0, e1, v, d);
    Display21(e0, e1, d);
  }

  /** tests/test_parseFileProperties.py:122-124 and 130-132: a trailing availability slot is ignored, with or without a `Version` slot. */
  lemma AvailabilityExample(ext: string, rest: string, date: string, availability: string)
    requires ext == "pdf" && rest == ": 2" && date == "17. Sep 2020, 14:59"
    ensures ParseFileProperties([Slot(ext), Slot("500" + "," + "8" + " " + "KB"), Slot(date), Slot(availability)])
      == Ok(Properties("." + ext, Some(0.5008), Parsed(Slot(date))))
    ensures ParseFileProperties([Slot(ext), Slot("500" + "," + "8" + " " + "KB"), Slot("Version" + rest), Slot(date), Slot(availability)])
      == Ok(Properties("." + ext, Some(0.5008), Parsed(Slot(date))))
  {
    AvailabilitySize();
    ThreeSlots(ext, "500", "8", date);
    var e0, e1, d, av := Slot(ext), Slot("500" + "," + "8" + " " + "KB"), Slot(date), Slot(availability);
    TrailingAfterThree(ext, "500", "8", date, av);
    VersionDropped(e0, e1, rest, [d, av]);
    Display32(e0, e1, Slot("Version" + rest), d, av);
    Display22(e0, e1, d, av);
  }

  /** After the three slots of a file entry, one more slot is ignored. */
  lemma TrailingAfterThree(ext: string, i: string, f: string, date: string, av: string)
    requires ext != [] && NoSpace(ext) && Lacks(ext, 'V')
    requires i != [] && AllDigits(i) && AllDigits(f)
    requires date != [] && !IsSpace(date[0]) && Lacks(date, 'V')
    ensures ParseFileProperties([Slot(ext), Slot(i + "," + f + " " + "KB"), Slot(date), av])
      == ParseFileProperties([Slot(ext), Slot(i + "," + f + " " + "KB"), Slot(date)])
  {
    var e0, e1, d := Slot(ext), Slot(i + "," + f + " " + "KB"), Slot(date);
    SlotKept(ext);
    KbTextKept(i, f);
    SlotKept(date);
    KeptThree(e0, e1, d);
    TrailingSlotsIgnored([e0, e1, d], [av]);
    Display31(e0, e1, d, av);
  }

  /** A slot of two words gives no extension. */
  lemma TwoWordSlot(x: string, y: string)
    requires x != [] && NoSpace(x) && Lacks(x, 'V')
    requires y != [] && NoSpace(y) && Lacks(y, 'V')
    ensures Kept(Slot(x + " " + y))
    ensures |Split(Slot(x + " " + y))| == 2
  {
    PaddingIsSpace();
    SplitPadded2(Before, x, " ", y, After);
    assert Slot(x + " " + y) == Before + x + " " + y + After;
    assert Lacks(x + " " + y, 'V') by { LacksConcat(x, " ", 'V'); LacksConcat(x + " ", y, 'V'); }
    assert (x + " " + y)[0] == x[0];
    SlotKept(x + " " + y);
  }

  /** The slot `d Bytes` is kept and reads as `d` bytes. */
  lemma BytesSlot(d: string)
    requires d != [] && AllDigits(d)
    ensures Kept(Slot(d + " " + "Bytes"))
    ensures ParseSize(Slot(d + " " + "Bytes")) == Ok(ToMegabytes(DigitsValue(d) as real, "bytes"))
  {
    BytesSize(d);
    BytesText(d);
    SlotKept(d + " " + "Bytes");
  }

  /** The text `d Bytes` starts with a digit and holds no `V`. */
  lemma BytesText(d: string)
    requires d != [] && AllDigits(d)
    ensures d + " " + "Bytes" != [] && !IsSpace((d + " " + "Bytes")[0]) && Lacks(d + " " + "Bytes", 'V')
  {
    assert Lacks(d, 'V') && Lacks(" " + "Bytes", 'V');
    LacksConcat(d, " " + "Bytes", 'V');
    assert d + " " + "Bytes" == d + (" " + "Bytes");
    assert (d + " " + "Bytes")[0] == d[0];
  }

  lemma BytesSize(d: string)
    requires d != [] && AllDigits(d)
    ensures ParseSize(Slot(d + " " + "Bytes")) == Ok(ToMegabytes(DigitsValue(d) as real, "bytes"))
  {
    BytesPadded(d);
    BytesSlotText(d);
  }

  lemma BytesPadded(d: string)
    requires d != [] && AllDigits(d)
    ensures ParseSize(Before + d + " " + "Bytes" + After) == Ok(ToMegabytes(DigitsValue(d) as real, "bytes"))
  {
    PaddingIsSpace();
    KbIsLower();
    assert NoSpace("bytes") && Lacks("bytes", '.') && Lacks("bytes", ',');
    ParseSizeInteger(Before, d, "Bytes", After);
  }

  lemma BytesSlotText(d: string)
    ensures Slot(d + " " + "Bytes") == Before + d + " " + "Bytes" + After
  {
  }

  lemma SecondDropped(a: string, v: string, b: string, c: string)
    requires !Kept(v)
    ensures ParseFileProperties([a, v, b, c]) == ParseFileProperties([a, b, c])
  {
    DroppedSlotIgnored([a], v, [b, c]);
    Display112(a, v, b, c);
    Display12(a, b, c);
  }

  /** Three kept slots, the first of several words: no extension. */
  lemma ParseThreeNoEnding(a: string, b: string, c: string, v: real)
    requires Kept(a) && Kept(b) && Kept(c)
    requires |Split(a)| > 1 && ParseSize(b) == Ok(v)
    ensures ParseFileProperties([a, b, c]) == Ok(Properties("", Some(v), Parsed(c)))
  {
    KeptThree(a, b, c);
  }

  /** An empty span is dropped by the filter. */
  lemma EmptySlotDropped()
    ensures !Kept(Slot(""))
  {
    PaddingIsSpace();
    assert Slot("") == Before + After;
  }

  /**
   * tests/test_parseFileProperties.py:126-128: two words give no extension,
   * an empty slot is dropped, and `d Bytes` is read as bytes (with
   * `BytesValue`, `739 Bytes` is 0.000739 MB).
   */
  lemma MissingExtensionExample(x: string, y: string, d: string, date: string)
    requires x != [] && NoSpace(x) && Lacks(x, 'V')
    requires y != [] && NoSpace(y) && Lacks(y, 'V')
    requires d != [] && AllDigits(d)
    requires date != [] && !IsSpace(date[0]) && Lacks(date, 'V')
    ensures ParseFileProperties([Slot(x + " " + y), Slot(""), Slot(d + " " + "Bytes"), Slot(date)])
      == Ok(Properties("", Some(ToMegabytes(DigitsValue(d) as real, "bytes")), Parsed(Slot(date))))
  {
    TwoWordSlot(x, y);
    BytesSlot(d);
    SlotKept(date);
    EmptySlotDropped();
    ParseThreeNoEnding(Slot(x + " " + y), Slot(d + " " + "Bytes"), Slot(date), ToMegabytes(DigitsValue(d) as real, "bytes"));
    SecondDropped(Slot(x + " " + y), Slot(""), Slot(d + " " + "Bytes"), Slot(date));
  }
}
