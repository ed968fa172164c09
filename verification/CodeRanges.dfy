/** The status-code lists of the configuration: "401,500-503". */
module CodeRanges {
  import opened Common
  import opened SettingsModel
  import opened Text

  datatype Parsed = Ranges(ranges: seq<CodeRange>) | Malformed

  /** A trimmed, non-empty item: one code, or two with a dash between them. */
  function ParseItem(p: string): Option<CodeRange> {
    var cut := CutAt(p, '-');
    if cut.Some? then
      var a, b := Atoi(TrimSpace(cut.value.0)), Atoi(TrimSpace(cut.value.1));
      if a.None? || b.None? || a.value > b.value then None else Some(CodeRange(a.value, b.value))
    else
      var n := Atoi(p);
      if n.None? then None else Some(CodeRange(n.value, n.value))
  }

  datatype Part = Blank | Bad | Good(range: CodeRange)

  function ReadPart(part: string): Part {
    var p := TrimSpace(part);
    if p == "" then Blank
    else
      var r := ParseItem(p);
      if r.None? then Bad else Good(r.value)
  }

  function ReadParts(parts: seq<string>): seq<Part> {
    seq(|parts|, i requires 0 <= i < |parts| => ReadPart(parts[i]))
  }

  /** Blank parts are skipped; one bad part spoils the list. */
  function Collect(parts: seq<Part>): Parsed {
    if parts == [] then Ranges([]) else CollectOne(Collect(parts[..|parts| - 1]), parts[|parts| - 1])
  }

  function CollectOne(before: Parsed, part: Part): Parsed {
    if before.Malformed? || part.Blank? then before
    else if part.Bad? then Malformed
    else Ranges(before.ranges + [part.range])
  }

  function Parse(s: string): Parsed {
    var t := TrimSpace(s);
    if t == "" then Ranges([]) else Collect(ReadParts(Split(t, ',')))
  }

  method ParseCodeRanges(s: string) returns (res: Parsed)
    ensures res == Parse(s)
  {
    var t := TrimSpace(s);
    if t == "" {
      return Ranges([]);
    }
    res := CollectParts(Split(t, ','));
  }

  /** The loop over the parts; the first bad one ends it. */
  method CollectParts(parts: seq<string>) returns (res: Parsed)
    ensures res == Collect(ReadParts(parts))
  {
    ghost var all := ReadParts(parts);
    var ranges := [];
    for i := 0 to |parts|
      invariant Collect(all[..i]) == Ranges(ranges)
    {
      var part := ReadOne(parts[i]);
      CollectStep(all, i);
      if part.Blank? {
        continue;
      }
      if part.Bad? {
        BadSpreads(all, i + 1);
        return Malformed;
      }
      ranges := ranges + [part.range];
    }
    assert all[..|all|] == all;
    return Ranges(ranges);
  }

  lemma CollectStep(parts: seq<Part>, i: nat)
    requires i < |parts|
    ensures Collect(parts[..i + 1]) == CollectOne(Collect(parts[..i]), parts[i])
  {
    assert parts[..i + 1][..i] == parts[..i];
  }

  method ReadOne(text: string) returns (part: Part)
    ensures part == ReadPart(text)
  {
    var p := TrimSpace(text);
    if p == "" {
      return Blank;
    }
    var r := ParseItem(p);
    if r.None? {
      return Bad;
    }
    return Good(r.value);
  }

  lemma {:induction false} BadSpreads(parts: seq<Part>, n: nat)
    requires n <= |parts| && Collect(parts[..n]).Malformed?
    ensures Collect(parts).Malformed?
    decreases |parts| - n
  {
    if n == |parts| {
      assert parts[..n] == parts;
    } else {
      assert parts[..n + 1][..n] == parts[..n];
      BadSpreads(parts, n + 1);
    }
  }

  lemma {:induction false} MalformedIffBad(parts: seq<Part>)
    ensures Collect(parts).Malformed? <==> Bad in parts
  {
    if parts != [] {
      MalformedIffBad(parts[..|parts| - 1]);
      assert parts == parts[..|parts| - 1] + [parts[|parts| - 1]];
    }
  }

  /** A text is refused exactly when one of its comma-separated parts is neither blank nor a code or range. */
  lemma RefusedIffBad(s: string)
    ensures Parse(s).Malformed? <==> Bad in ReadParts(Split(s, ','))
  {
    ParseIsCollect(s);
    MalformedIffBad(ReadParts(Split(s, ',')));
  }

  /** No accepted range is empty or starts below zero: a sign cannot get past the dash. */
  lemma ItemIsOrdered(p: string)
    ensures ParseItem(p).Some? ==> 0 <= ParseItem(p).value.start <= ParseItem(p).value.end <= MAX_INT
  {
    CutIsFirst(p, '-');
    if ParseItem(p).Some? && CutAt(p, '-').Some? {
      TrimKeepsFree(CutAt(p, '-').value.0, '-');
    }
  }

  lemma {:induction false} TrimLeftFree(s: string, c: char)
    requires c !in s
    ensures c !in TrimLeft(s)
  {
    if s != "" {
      TrimLeftFree(s[1..], c);
    }
  }

  lemma {:induction false} TrimRightFree(s: string, c: char)
    requires c !in s
    ensures c !in TrimRight(s)
  {
    if s != "" {
      TrimRightFree(s[..|s| - 1], c);
    }
  }

  lemma TrimKeepsFree(s: string, c: char)
    requires c !in s
    ensures c !in TrimSpace(s)
  {
    TrimLeftFree(s, c);
    TrimRightFree(TrimLeft(s), c);
  }

  lemma {:induction false} CollectKeeps(parts: seq<Part>)
    requires forall i :: 0 <= i < |parts| && parts[i].Good? ==> 0 <= parts[i].range.start <= parts[i].range.end <= MAX_INT
    ensures Collect(parts).Ranges? ==> forall r :: r in Collect(parts).ranges ==> 0 <= r.start <= r.end <= MAX_INT
  {
    if parts != [] {
      CollectKeeps(parts[..|parts| - 1]);
    }
  }

  /** Every accepted range satisfies 0 <= start <= end. */
  lemma AcceptedAreOrdered(s: string)
    ensures Parse(s).Ranges? ==> forall r :: r in Parse(s).ranges ==> 0 <= r.start <= r.end <= MAX_INT
  {
    var texts := Split(TrimSpace(s), ',');
    forall i | 0 <= i < |texts|
      ensures ReadPart(texts[i]).Good? ==> 0 <= ReadPart(texts[i]).range.start <= ReadPart(texts[i]).range.end <= MAX_INT
    {
      ItemIsOrdered(TrimSpace(texts[i]));
    }
    CollectKeeps(ReadParts(texts));
  }

  // ----- white space around the whole text -----

  lemma SpaceBehind(s: string, c: char)
    requires IsSpace(c)
    ensures ReadParts(Split(s + [c], ',')) == ReadParts(Split(s, ','))
  {
    SplitSnoc(s, ',', c);
    LastPartPadded(Split(s, ','), c);
  }

  lemma LastPartPadded(parts: seq<string>, c: char)
    requires IsSpace(c) && parts != []
    ensures ReadParts(Behind(parts, c)) == ReadParts(parts)
  {
    TrimAbsorbs(parts[|parts| - 1], c);
  }

  lemma SpaceInFront(c: char, s: string)
    requires IsSpace(c)
    ensures ReadParts(Split([c] + s, ',')) == ReadParts(Split(s, ','))
  {
    assert ([c] + s)[1..] == s;
    FirstPartPadded(Split(s, ','), c);
  }

  lemma FirstPartPadded(parts: seq<string>, c: char)
    requires IsSpace(c) && parts != []
    ensures ReadParts(InFront(c, ',', parts)) == ReadParts(parts)
  {
    TrimAbsorbs(parts[0], c);
  }

  lemma {:induction false} LeftDoesNotMatter(s: string)
    ensures ReadParts(Split(TrimLeft(s), ',')) == ReadParts(Split(s, ','))
  {
    if s != "" && IsSpace(s[0]) {
      LeftDoesNotMatter(s[1..]);
      SpaceInFront(s[0], s[1..]);
      assert s == [s[0]] + s[1..];
    }
  }

  lemma {:induction false} RightDoesNotMatter(s: string)
    ensures ReadParts(Split(TrimRight(s), ',')) == ReadParts(Split(s, ','))
  {
    var n := |s| - 1;
    if s != "" && IsSpace(s[n]) {
      RightDoesNotMatter(s[..n]);
      SpaceBehind(s[..n], s[n]);
      assert s == s[..n] + [s[n]];
    }
  }

  /** The trimming of the whole text and its early return change nothing. */
  lemma ParseIsCollect(s: string)
    ensures Parse(s) == Collect(ReadParts(Split(s, ',')))
  {
    LeftDoesNotMatter(s);
    RightDoesNotMatter(TrimLeft(s));
    if TrimSpace(s) == "" {
      assert Split("", ',') == [""] && TrimSpace("") == "";
      assert ReadParts([""]) == [Blank] && [Blank][..0] == [];
    }
  }

  // ----- printing -----

  /** An item of a printed list: a range with white space around it. */
  datatype Item = Item(left: string, range: CodeRange, long: bool, right: string)

  /** "n" for one code (or "n-n" in the long form), "a-b" for several. */
  function Core(r: CodeRange, long: bool): string {
    if r.start == r.end && !long then Itoa(r.start) else Itoa(r.start) + "-" + Itoa(r.end)
  }

  function Print(i: Item): string { i.left + Core(i.range, i.long) + i.right }

  function PrintAll(items: seq<Item>): seq<string> {
    seq(|items|, k requires 0 <= k < |items| => Print(items[k]))
  }

  function RangesOf(items: seq<Item>): seq<CodeRange> {
    seq(|items|, k requires 0 <= k < |items| => items[k].range)
  }

  ghost predicate Printable(i: Item) {
    AllSpace(i.left) && AllSpace(i.right) && 0 <= i.range.start <= i.range.end <= MAX_INT
  }

  /** A number in decimal: digits only. */
  lemma NumberText(n: nat)
    requires n <= MAX_INT
    ensures var t := Itoa(n); t != "" && AllDigits(t) && Trimmed(t) && '-' !in t && ',' !in t && TrimSpace(t) == t
  {
    DigitsRead(n);
    var t := Itoa(n);
    assert IsDigit(t[0]) && IsDigit(t[|t| - 1]);
    TrimOf("", t, "");
    assert "" + t + "" == t;
    forall c | c in t
      ensures IsDigit(c)
    {
      var i :| 0 <= i < |t| && t[i] == c;
    }
  }

  lemma CoreText(r: CodeRange, long: bool)
    requires 0 <= r.start <= r.end <= MAX_INT
    ensures Core(r, long) != "" && Trimmed(Core(r, long)) && ',' !in Core(r, long)
    ensures ParseItem(Core(r, long)) == Some(r)
  {
    NumberText(r.start);
    NumberText(r.end);
    AtoiOfItoa(r.start);
    AtoiOfItoa(r.end);
    CutIsFirst(Itoa(r.start), '-');
    CutOf(Itoa(r.start), '-', Itoa(r.end));
  }

  lemma SpaceIsNoComma(s: string)
    requires AllSpace(s)
    ensures ',' !in s
  {
  }

  lemma PrintReads(i: Item)
    requires Printable(i)
    ensures ',' !in Print(i) && ReadPart(Print(i)) == Good(i.range)
  {
    CoreText(i.range, i.long);
    SpaceIsNoComma(i.left);
    SpaceIsNoComma(i.right);
    TrimOf(i.left, Core(i.range, i.long), i.right);
  }

  lemma {:induction false} CollectGood(parts: seq<Part>, ranges: seq<CodeRange>)
    requires |parts| == |ranges| && forall k :: 0 <= k < |parts| ==> parts[k] == Good(ranges[k])
    ensures Collect(parts) == Ranges(ranges)
  {
    if parts != [] {
      var n := |parts| - 1;
      CollectGood(parts[..n], ranges[..n]);
      assert ranges == ranges[..n] + [ranges[n]];
    }
  }

  /**
   * Round trip: any printing of any list of ranges with 0 <= start <= end, with any white
   * space around the items, parses to that list.
   */
  lemma ParseOfPrint(items: seq<Item>)
    requires forall k :: 0 <= k < |items| ==> Printable(items[k])
    ensures Parse(Join(PrintAll(items), ',')) == Ranges(RangesOf(items))
  {
    if items == [] {
      assert TrimSpace("") == "";
    } else {
      var texts := PrintAll(items);
      forall k | 0 <= k < |texts|
        ensures ',' !in texts[k] && ReadPart(texts[k]) == Good(items[k].range)
      {
        PrintReads(items[k]);
      }
      ParseIsCollect(Join(texts, ','));
      SplitOfJoin(texts, ',');
      CollectGood(ReadParts(texts), RangesOf(items));
    }
  }

  /** What was printed is what is matched. */
  lemma MatchOfPrint(items: seq<Item>, code: int)
    requires forall k :: 0 <= k < |items| ==> Printable(items[k])
    ensures Parse(Join(PrintAll(items), ',')).Ranges?
    ensures MatchCodeRange(Parse(Join(PrintAll(items), ',')).ranges, code)
            <==> exists k :: 0 <= k < |items| && items[k].range.start <= code <= items[k].range.end
  {
    ParseOfPrint(items);
    var ranges := RangesOf(items);
    assert forall k :: 0 <= k < |items| ==> ranges[k] == items[k].range && ranges[k] in ranges;
  }

  // ----- exactly what is read -----

  /** The text is a code, or two codes in order with a dash between them and white space anywhere around. */
  ghost predicate Says(p: string, r: CodeRange) {
    && r.start <= r.end <= MAX_INT
    && (SaysOne(p, r) || exists a, b :: SaysTwo(p, r, a, b))
  }

  ghost predicate SaysOne(p: string, r: CodeRange) {
    '-' !in p && Decimal(p, r.start) && r.start == r.end
  }

  ghost predicate SaysTwo(p: string, r: CodeRange, a: string, b: string) {
    '-' !in a && p == a + "-" + b && Decimal(TrimSpace(a), r.start) && Decimal(TrimSpace(b), r.end)
  }

  lemma UnsignedDecimal(s: string, v: int)
    requires '-' !in s && Decimal(s, v)
    ensures v >= 0
  {
    var sign, zeros :| DecimalAs(s, v, sign, zeros);
    assert forall i :: 0 <= i < |sign| ==> sign[i] == s[i] && s[i] in s;
  }

  lemma SaidIsRead(p: string, r: CodeRange)
    requires Says(p, r)
    ensures ParseItem(p) == Some(r)
  {
    CutIsFirst(p, '-');
    if SaysOne(p, r) {
      UnsignedDecimal(p, r.start);
      AtoiIff(p, r.start);
    } else {
      var a, b :| SaysTwo(p, r, a, b);
      CutOf(a, '-', b);
      TrimKeepsFree(a, '-');
      UnsignedDecimal(TrimSpace(a), r.start);
      AtoiIff(TrimSpace(a), r.start);
      AtoiIff(TrimSpace(b), r.end);
    }
  }

  lemma ReadIsSaid(p: string, r: CodeRange)
    requires ParseItem(p) == Some(r)
    ensures Says(p, r)
  {
    CutIsFirst(p, '-');
    var cut := CutAt(p, '-');
    if cut.Some? {
      var (a, b) := cut.value;
      AtoiIff(TrimSpace(a), r.start);
      AtoiIff(TrimSpace(b), r.end);
      assert SaysTwo(p, r, a, b);
    } else {
      AtoiIff(p, r.start);
      assert SaysOne(p, r);
    }
  }

  /** Whether a part of the text is neither blank nor says a range. */
  ghost predicate SaysNothing(part: string) {
    !AllSpace(part) && forall r :: !Says(TrimSpace(part), r)
  }

  lemma PartIff(part: string, r: CodeRange)
    ensures ReadPart(part) == Good(r) <==> !AllSpace(part) && Says(TrimSpace(part), r)
    ensures ReadPart(part) == Bad <==> SaysNothing(part)
  {
    TrimTwice(part);
    var p := TrimSpace(part);
    forall q
      ensures ParseItem(p) == Some(q) <==> Says(p, q)
    {
      if ParseItem(p) == Some(q) {
        ReadIsSaid(p, q);
      }
      if Says(p, q) {
        SaidIsRead(p, q);
      }
    }
  }

  /** A text is refused exactly when some part between commas is not blank and says no range. */
  lemma RefusedIff(s: string)
    ensures Parse(s).Malformed? <==> exists part :: part in Split(s, ',') && SaysNothing(part)
  {
    RefusedIffBad(s);
    var parts := Split(s, ',');
    forall i | 0 <= i < |parts|
      ensures ReadParts(parts)[i] == Bad <==> SaysNothing(parts[i])
    {
      PartIff(parts[i], CodeRange(0, 0));
    }
    if Bad in ReadParts(parts) {
      var i :| 0 <= i < |parts| && ReadParts(parts)[i] == Bad;
      assert parts[i] in parts;
    }
    if part :| part in parts && SaysNothing(part) {
      var i :| 0 <= i < |parts| && parts[i] == part;
      assert ReadParts(parts)[i] == Bad;
    }
  }

  lemma {:induction false} CollectedIff(parts: seq<Part>, r: CodeRange)
    requires Collect(parts).Ranges?
    ensures r in Collect(parts).ranges <==> Good(r) in parts
  {
    if parts != [] {
      CollectedIff(parts[..|parts| - 1], r);
      assert parts == parts[..|parts| - 1] + [parts[|parts| - 1]];
    }
  }

  /** The ranges of an accepted text are exactly those its parts say. */
  lemma RangesIff(s: string, r: CodeRange)
    requires Parse(s).Ranges?
    ensures r in Parse(s).ranges <==> exists part :: part in Split(s, ',') && !AllSpace(part) && Says(TrimSpace(part), r)
  {
    ParseIsCollect(s);
    var parts := Split(s, ',');
    CollectedIff(ReadParts(parts), r);
    if Good(r) in ReadParts(parts) {
      var i :| 0 <= i < |parts| && ReadParts(parts)[i] == Good(r);
      PartIff(parts[i], r);
      assert parts[i] in parts;
    }
    if part :| part in parts && !AllSpace(part) && Says(TrimSpace(part), r) {
      var i :| 0 <= i < |parts| && parts[i] == part;
      PartIff(parts[i], r);
      assert ReadParts(parts)[i] == Good(r);
    }
  }

  lemma DescendingIsNoItem(a: nat, b: nat)
    requires b < a <= MAX_INT
    ensures ParseItem(Itoa(a) + "-" + Itoa(b)).None?
  {
    NumberText(a);
    NumberText(b);
    AtoiOfItoa(a);
    AtoiOfItoa(b);
    CutOf(Itoa(a), '-', Itoa(b));
  }

  lemma DashedText(a: nat, b: nat)
    requires a <= MAX_INT && b <= MAX_INT
    ensures var p := Itoa(a) + "-" + Itoa(b); ',' !in p && TrimSpace(p) == p != ""
  {
    var p := Itoa(a) + "-" + Itoa(b);
    NumberText(a);
    NumberText(b);
    assert p[0] == Itoa(a)[0] && p[|p| - 1] == Itoa(b)[|Itoa(b)| - 1];
    TrimOf("", p, "");
    assert "" + p + "" == p;
  }

  /** A range printed upside down is refused, like "503-500". */
  lemma DescendingRefused(a: nat, b: nat)
    requires b < a <= MAX_INT
    ensures Parse(Itoa(a) + "-" + Itoa(b)).Malformed?
  {
    var p := Itoa(a) + "-" + Itoa(b);
    DescendingIsNoItem(a, b);
    DashedText(a, b);
    SplitFree(p, ',');
    assert ReadParts([p])[0] == Bad;
    RefusedIffBad(p);
  }

  /** Every kind of white space is skipped around a code or range. */
  lemma SpacesSkipped(c: char, r: CodeRange, long: bool)
    requires c in WHITE_SPACE && 0 <= r.start <= r.end <= MAX_INT
    ensures Parse([c] + Core(r, long) + [c]) == Ranges([r])
  {
    SpaceIff(c);
    var item := Item([c], r, long, [c]);
    ParseOfPrint([item]);
    assert PrintAll([item]) == [Print(item)] && RangesOf([item]) == [r];
  }

  /** A character that no list of ranges holds. */
  predicate Stranger(c: char) {
    !IsDigit(c) && c !in WHITE_SPACE && c !in "-+,"
  }

  lemma {:induction false} TrimLeftHas(s: string, c: char)
    requires !IsSpace(c) && c in s
    ensures c in TrimLeft(s)
  {
    if IsSpace(s[0]) {
      assert s == [s[0]] + s[1..];
      TrimLeftHas(s[1..], c);
    }
  }

  lemma {:induction false} TrimRightHas(s: string, c: char)
    requires !IsSpace(c) && c in s
    ensures c in TrimRight(s)
  {
    if IsSpace(s[|s| - 1]) {
      assert s == s[..|s| - 1] + [s[|s| - 1]];
      TrimRightHas(s[..|s| - 1], c);
    }
  }

  lemma TrimHas(s: string, c: char)
    requires !IsSpace(c) && c in s
    ensures c in TrimSpace(s)
  {
    TrimLeftHas(s, c);
    TrimRightHas(TrimLeft(s), c);
  }

  lemma StrangerIsNoNumber(s: string, c: char)
    requires Stranger(c) && c in s
    ensures Atoi(s).None?
  {
    assert s == [s[0]] + s[1..];
  }

  lemma StrangerIsNoItem(p: string, c: char)
    requires Stranger(c) && c in p
    ensures ParseItem(p).None?
  {
    CutIsFirst(p, '-');
    StrangerIsNoNumber(p, c);
    var cut := CutAt(p, '-');
    if cut.Some? {
      var (a, b) := cut.value;
      if c in a {
        TrimHas(a, c);
        StrangerIsNoNumber(TrimSpace(a), c);
      } else {
        assert c in b;
        TrimHas(b, c);
        StrangerIsNoNumber(TrimSpace(b), c);
      }
    }
  }

  lemma {:induction false} JoinHas(parts: seq<string>, sep: char, c: char) returns (i: nat)
    requires c != sep && c in Join(parts, sep)
    ensures i < |parts| && c in parts[i]
  {
    if c in parts[0] {
      i := 0;
    } else {
      var j := JoinHas(parts[1..], sep, c);
      i := j + 1;
    }
  }

  /** Any text with a letter in it is refused, like "abc" or "4xx". */
  lemma StrangerRefused(s: string, c: char)
    requires Stranger(c) && c in s
    ensures Parse(s).Malformed?
  {
    JoinOfSplit(s, ',');
    var parts := Split(s, ',');
    var i := JoinHas(parts, ',', c);
    TrimHas(parts[i], c);
    StrangerIsNoItem(TrimSpace(parts[i]), c);
    assert ReadParts(parts)[i] == Bad;
    RefusedIffBad(s);
  }
}
