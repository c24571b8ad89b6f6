/** The reader of the BND sensor-position format (src/ReaderBND.cpp).

    A BND file is a header of directive lines followed by a block of
    tab-separated coordinates:

        NumberPositions= <count>
        UnitPosition <unit>
        Positions
        <x>\t<y>\t<z>
        ...

    The input stream is the sequence of the file's lines with a cursor (the
    position of `std::getline`); text-to-number conversion (`istringstream >>`)
    is a pair of given functions, since its rules are not part of this model. */
module ReaderBnd {
  import opened CppString
  import opened Geometry
  import Text
  import opened Options

  /** `istringstream >> size_t` and `istringstream >> double`; the count read
      is a `size_t`, below 2^64. */
  datatype NumParse = NumParse(toSize: string -> SizeT, toReal: string -> real)

  //----------------------------------------------------------------------------
  // Directive lines

  /** `readNumPos`: the number read after the first space; a line without a
      space is rejected (`None`), and the caller's count is then left as it
      was. */
  function ReadNumPos(line: CppStr, toSize: string -> SizeT): (r: Option<SizeT>)
    ensures r.Some? <==> ' ' in line
    ensures r.Some? ==> exists i :: 0 <= i < |line| && line[i] == ' ' && ' ' !in line[..i]
                                    && r.value == toSize(line[i + 1..])
  {
    var pos := FindChar(line, ' ');
    FindCharMembership(line, ' ');
    if pos == NPOS then None
    else
      assert Substr(line, pos + 1, NPOS) == line[pos + 1..];
      Some(toSize(Substr(line, pos + 1, NPOS)))
  }

  const UNIT_KEYWORD: string := "UnitPosition"

  /** `readUnitPos`: the scale factor, chosen by `find(token) > 12` tests in the
      order mm, cm, dm, m. The factor is always one of the four scales, and the
      "unknown unit" result sets it to 1. */
  function ReadUnitPos(line: CppStr): (r: (bool, real))
    ensures r.1 == 0.001 || r.1 == 0.01 || r.1 == 0.1 || r.1 == 1.0
    ensures !r.0 ==> r.1 == 1.0
  {
    var length := |UNIT_KEYWORD|;
    if Find(line, "mm") > length then (true, 0.001)
    else if Find(line, "cm") > length then (true, 0.01)
    else if Find(line, "dm") > length then (true, 0.1)
    else if Find(line, "m") > length then (true, 1.0)
    else (false, 1.0)
  }

  /** On a line that starts with "UnitPosition" the resolver never fails and
      gives 0.001 unless the first "mm" starts right after the keyword, where it
      gives 0.01: a token that is absent makes `find` return npos, which passes
      the `> 12` test. So cm, dm and m are never chosen as written. */
  lemma {:induction false} UnitLineResolution(line: CppStr)
    requires Text.StartsWith(line, UNIT_KEYWORD)
    ensures ReadUnitPos(line) == (true, if Find(line, "mm") == 12 then 0.01 else 0.001)
  {
    assert line[..12] == UNIT_KEYWORD;
    forall j | 0 <= j < 12 ensures line[j] != 'm' && line[j] != 'c' {
      assert line[j] == UNIT_KEYWORD[j];
    }
    NoOccurrenceBefore(line, "mm", 12);
    var mm := Find(line, "mm");
    if mm == 12 {
      FindFromFirst(line, "mm", 0);
      assert line[12] == 'm';
      NoOccurrenceBefore(line, "cm", 13);
    }
  }

  /** No occurrence of `pat` starts before `k` when none of the first `k`
      characters is `pat[0]`; so `find` answers `k` or more. */
  lemma {:induction false} NoOccurrenceBefore(s: CppStr, pat: string, k: nat)
    requires |pat| > 0 && k <= |s|
    requires forall j :: 0 <= j < k ==> s[j] != pat[0]
    ensures Find(s, pat) >= k
  {
    FindFromFirst(s, pat, 0);
    forall j | 0 <= j < k ensures !OccursAt(s, pat, j) {
      if j + |pat| <= |s| {
        assert s[j..j + |pat|][0] == s[j];
      }
    }
  }

  /** "UnitPosition", a separator other than 'm' (a tab, a space) and any unit
      at all, "m", "cm" and "dm" included, is read with the millimetre
      factor. */
  lemma {:induction false} SeparatedUnitReadAsMillimetre(sep: char, unit: string)
    requires sep != 'm'
    requires |UNIT_KEYWORD + [sep] + unit| < NPOS
    ensures ReadUnitPos(UNIT_KEYWORD + [sep] + unit) == (true, 0.001)
  {
    var line: CppStr := UNIT_KEYWORD + [sep] + unit;
    assert line[..12] == UNIT_KEYWORD;
    UnitLineResolution(line);
    FindFromFirst(line, "mm", 0);
    assert line[12] == sep;
    assert !OccursAt(line, "mm", 12);
  }

  /** "UnitPositionmm..." is the one spelling that yields the centimetre
      factor. */
  lemma {:induction false} AdjacentMillimetreReadAsCentimetre(rest: string)
    requires |UNIT_KEYWORD + "mm" + rest| < NPOS
    ensures ReadUnitPos(UNIT_KEYWORD + "mm" + rest) == (true, 0.01)
  {
    var line: CppStr := UNIT_KEYWORD + "mm" + rest;
    assert line[..12] == UNIT_KEYWORD;
    UnitLineResolution(line);
    assert line[12..14] == "mm";
    assert OccursAt(line, "mm", 12);
    FindFromFirst(line, "mm", 0);
  }

  //----------------------------------------------------------------------------
  // Coordinate lines

  /** The three texts handed to `>>` for x, y and z: x is everything before the
      first tab; from the rest, y is everything up to AND INCLUDING the next
      tab, and z is what follows it. A missing tab makes `find` return npos,
      and `npos + 1` wraps to 0. */
  function FieldTexts(line: CppStr): (t: (string, string, string))
  {
    var pos := FindChar(line, '\t');
    var tail := TailTexts(Substr(line, SizeInc(pos), NPOS));
    (Substr(line, 0, pos), tail.0, tail.1)
  }

  /** The y and z texts cut from `tail`, the line after its first tab. */
  function TailTexts(tail: CppStr): (t: (string, string))
  {
    var pos := FindChar(tail, '\t');
    (Substr(tail, 0, SizeInc(pos)), Substr(tail, SizeInc(pos), NPOS))
  }

  /** A line `a\trest` gives x from `a`; y and z come from `rest`. */
  lemma {:induction false} FieldsAfterFirstTab(a: string, rest: string)
    requires '\t' !in a
    requires |a + "\t" + rest| < NPOS
    ensures var t := TailTexts(rest); FieldTexts(a + "\t" + rest) == (a, t.0, t.1)
  {
    var line: CppStr := a + "\t" + rest;
    assert line == a + ['\t'] + rest;
    FindCharAfter(a, '\t', rest);
    assert Substr(line, |a| + 1, NPOS) == rest;
    assert line[..|a|] == a;
  }

  /** A tail `b\tc` gives y as `b` with its tab, z as `c`. */
  lemma {:induction false} TailOfTwoColumns(b: string, c: string)
    requires '\t' !in b
    requires |b + "\t" + c| < NPOS
    ensures TailTexts(b + "\t" + c) == (b + "\t", c)
  {
    var tail: CppStr := b + "\t" + c;
    assert tail == b + ['\t'] + c;
    FindCharAfter(b, '\t', c);
    assert SizeInc(|b|) == |b| + 1;
    assert Substr(tail, 0, |b| + 1) == tail[0..|b| + 1] == b + "\t";
    assert Substr(tail, |b| + 1, NPOS) == tail[|b| + 1..|tail|] == c;
  }

  /** A tail without a tab gives the empty y text and z as the whole tail. */
  lemma {:induction false} TailWithoutTab(r: CppStr)
    requires '\t' !in r
    ensures TailTexts(r) == ("", r)
  {
    FindCharMembership(r, '\t');
    assert SizeInc(FindChar(r, '\t')) == 0;
    assert Substr(r, 0, 0) == [];
    assert Substr(r, 0, NPOS) == r[0..|r|] == r;
  }

  /** `a\tb\tc` gives x from `a`, y from `b` with its tab, z from `c`. */
  lemma {:induction false} FieldsOfThreeColumns(a: string, b: string, c: string)
    requires '\t' !in a && '\t' !in b
    requires |a + "\t" + b + "\t" + c| < NPOS
    ensures FieldTexts(a + "\t" + b + "\t" + c) == (a, b + "\t", c)
  {
    assert a + "\t" + b + "\t" + c == a + "\t" + (b + "\t" + c);
    FieldsAfterFirstTab(a, b + "\t" + c);
    TailOfTwoColumns(b, c);
  }

  /** With a single tab y is read from the empty text and z from the rest. */
  lemma {:induction false} FieldsOfTwoColumns(a: string, r: string)
    requires '\t' !in a && '\t' !in r
    requires |a + "\t" + r| < NPOS
    ensures FieldTexts(a + "\t" + r) == (a, "", r)
  {
    FieldsAfterFirstTab(a, r);
    TailWithoutTab(r);
  }

  /** Without any tab both x and z are read from the whole line. */
  lemma {:induction false} FieldsWithoutTab(line: CppStr)
    requires '\t' !in line
    ensures FieldTexts(line) == (line, "", line)
  {
    FindCharMembership(line, '\t');
    assert SizeInc(FindChar(line, '\t')) == 0;
    assert line[0..] == line;
    TailWithoutTab(line);
  }

  /** One decoded point (the body of the block loop): each parsed field times
      the factor. */
  function DecodeLine(line: CppStr, factor: real, num: NumParse): Point3 {
    var t := FieldTexts(line);
    Point3(num.toReal(t.0) * factor, num.toReal(t.1) * factor, num.toReal(t.2) * factor)
  }

  /** The points of a run of coordinate lines, one per line, in line order. */
  function DecodeLines(ls: seq<CppStr>, factor: real, num: NumParse): (ps: seq<Point3>)
  {
    seq(|ls|, i requires 0 <= i < |ls| => DecodeLine(ls[i], factor, num))
  }

  /** Decoding one more line of a run appends its point. */
  lemma {:induction false} DecodeLinesSnoc(ls: seq<CppStr>, a: nat, c: nat, factor: real, num: NumParse,
                        points: seq<Point3>, out: seq<Point3>)
    requires a <= c < |ls|
    requires out == points + DecodeLines(ls[a..c], factor, num)
    ensures out + [DecodeLine(ls[c], factor, num)] == points + DecodeLines(ls[a..c + 1], factor, num)
  {
    var longer := DecodeLines(ls[a..c + 1], factor, num);
    assert longer == DecodeLines(ls[a..c], factor, num) + [DecodeLine(ls[c], factor, num)] by {
      assert ls[a..c + 1][c - a] == ls[c];
      forall k | 0 <= k < c - a ensures longer[k] == DecodeLines(ls[a..c], factor, num)[k] {
        assert ls[a..c + 1][k] == ls[a..c][k];
      }
    }
  }

  /** How many block lines are read: the count, or what is left of the input. */
  function Taken(count: nat, available: nat): (n: nat)
    ensures n <= count && n <= available
    ensures n == count || n == available
  {
    if count < available then count else available
  }

  //----------------------------------------------------------------------------
  // The header loop

  datatype LineKind = CountLine | UnitLine | PositionsLine | OtherLine

  /** The `if / else if` chain of the header loop: the first of the three
      prefixes the line starts with decides (`find(p) == 0` holds exactly when
      the line starts with `p`, see `FindZeroIsPrefix`). */
  function Classify(line: CppStr): LineKind {
    if Text.StartsWith(line, "NumberPositions=") then CountLine
    else if Text.StartsWith(line, UNIT_KEYWORD) then UnitLine
    else if Text.StartsWith(line, "Positions") then PositionsLine
    else OtherLine
  }

  /** What a header-loop line asks for: a count (the result of `readNumPos`),
      a unit (the result of `readUnitPos`), a block, or nothing. */
  datatype Directive =
    | CountDirective(countRead: Option<SizeT>)
    | UnitDirective(unitRead: (bool, real))
    | PositionsDirective
    | IgnoredLine

  /** The branch of the chain a line takes, with what its helper reads. */
  function ParseLine(line: CppStr, num: NumParse): Directive {
    match Classify(line)
    case CountLine => CountDirective(ReadNumPos(line, num.toSize))
    case UnitLine => UnitDirective(ReadUnitPos(line))
    case PositionsLine => PositionsDirective
    case OtherLine => IgnoredLine
  }

  /** The directive of every line of the file, in line order. */
  function Directives(lines: seq<CppStr>, num: NumParse): (ds: seq<Directive>)
  {
    seq(|lines|, i requires 0 <= i < |lines| => ParseLine(lines[i], num))
  }

  /** The directives of a part of the file are that part of the directives. */
  lemma {:induction false} DirectivesOfPart(lines: seq<CppStr>, a: nat, b: nat, num: NumParse)
    requires a <= b <= |lines|
    ensures Directives(lines, num)[a..b] == Directives(lines[a..b], num)
  {
    var ds := Directives(lines, num);
    forall k | 0 <= k < b - a ensures ds[a..b][k] == Directives(lines[a..b], num)[k] {
      assert lines[a..b][k] == lines[a + k];
    }
  }

  /** The header variables `hasPosNum`, `rc`, `countPos` and `factor`. */
  datatype Header = Header(hasPosNum: bool, rc: bool, count: nat, factor: real)

  const InitHeader: Header := Header(false, false, 0, 1.0)

  /** The coordinate lines one "Positions" line made the block decoder read,
      with the factor in force at that moment. */
  datatype Block = Block(lines: seq<CppStr>, factor: real)

  /** The points the blocks append, block after block, in line order. */
  function Decoded(blocks: seq<Block>, num: NumParse): (ps: seq<Point3>)
    decreases |blocks|
  {
    if blocks == [] then []
    else
      var last := blocks[|blocks| - 1];
      Decoded(blocks[..|blocks| - 1], num) + DecodeLines(last.lines, last.factor, num)
  }

  /** The loop state: the stream position, `hasPos`, the header variables and
      the blocks read so far (the points they append are `Decoded`). */
  datatype Scan = Scan(cursor: nat, hasPos: bool, header: Header, blocks: seq<Block>)

  /** What a count, unit or ignored line does to the header variables:
      `rc &= f()` still calls `f`, and a count line without a number leaves
      the count as it was. */
  function HeaderEffect(h: Header, d: Directive): (r: Header)
    ensures r.rc ==> h.rc
  {
    match d
    case CountDirective(n) =>
      h.(rc := h.rc && n.Some?, count := if n.Some? then n.value else h.count, hasPosNum := true)
    case UnitDirective(u) =>
      h.(rc := h.rc && u.0, factor := u.1, hasPosNum := true)
    case _ => h
  }

  /** One handled line, `ds` being the directives of `lines`; `st.cursor` is
      already past the line. A "Positions" line makes the block decoder read
      the following `Taken(count, rest)` lines (the decoder reports success,
      so `rc` keeps its value). */
  function Handle(lines: seq<CppStr>, ds: seq<Directive>, st: Scan): (r: Scan)
    requires |ds| == |lines| && 1 <= st.cursor <= |lines|
    ensures st.cursor <= r.cursor <= |lines|
    ensures r.header.rc ==> st.header.rc
  {
    var d := ds[st.cursor - 1];
    if d.PositionsDirective? then
      var n := Taken(st.header.count, |lines| - st.cursor);
      st.(cursor := st.cursor + n, hasPos := true,
          blocks := st.blocks + [Block(lines[st.cursor..st.cursor + n], st.header.factor)])
    else st.(header := HeaderEffect(st.header, d))
  }

  /** The `while( getline(...) && ( !hasPos || !hasPosNum ) )` loop. The line
      is read before the flags are tested, so leaving the loop on the flags
      consumes one more line. */
  function Run(lines: seq<CppStr>, ds: seq<Directive>, st: Scan): (r: Scan)
    requires |ds| == |lines| && st.cursor <= |lines|
    ensures st.cursor <= r.cursor <= |lines|
    decreases |lines| - st.cursor
  {
    if st.cursor == |lines| then st
    else if st.hasPos && st.header.hasPosNum then st.(cursor := st.cursor + 1)
    else Run(lines, ds, Handle(lines, ds, st.(cursor := st.cursor + 1)))
  }

  /** One turn of the loop that goes on: the line is read and handled. */
  lemma {:induction false} RunTurn(lines: seq<CppStr>, ds: seq<Directive>, st: Scan)
    requires |ds| == |lines| && st.cursor < |lines| && !(st.hasPos && st.header.hasPosNum)
    ensures Run(lines, ds, st) == Run(lines, ds, Handle(lines, ds, st.(cursor := st.cursor + 1)))
  {
  }

  /** One turn of the loop on a count, unit or ignored line. */
  lemma {:induction false} RunHeaderStep(lines: seq<CppStr>, ds: seq<Directive>, st: Scan, h: Header)
    requires |ds| == |lines| && st.cursor < |lines| && !(st.hasPos && st.header.hasPosNum)
    requires !ds[st.cursor].PositionsDirective?
    requires h == HeaderEffect(st.header, ds[st.cursor])
    ensures Run(lines, ds, st) == Run(lines, ds, Scan(st.cursor + 1, st.hasPos, h, st.blocks))
  {
  }

  /** One turn of the loop on a "Positions" line: the next `n` lines form a
      block. */
  lemma {:induction false} RunPositionsStep(lines: seq<CppStr>, ds: seq<Directive>, st: Scan, n: nat, next: Scan)
    requires |ds| == |lines| && st.cursor < |lines| && !(st.hasPos && st.header.hasPosNum)
    requires ds[st.cursor].PositionsDirective?
    requires n == Taken(st.header.count, |lines| - (st.cursor + 1))
    requires next.cursor == st.cursor + 1 + n && next.hasPos && next.header == st.header
    requires next.blocks == st.blocks + [Block(lines[st.cursor + 1..next.cursor], st.header.factor)]
    ensures Run(lines, ds, st) == Run(lines, ds, next)
  {
  }

  /** Once `hasPos` and `hasPosNum` both hold, the loop reads one more line
      (if any) and stops. */
  lemma {:induction false} RunStops(lines: seq<CppStr>, ds: seq<Directive>, st: Scan)
    requires |ds| == |lines| && st.cursor <= |lines| && st.hasPos && st.header.hasPosNum
    ensures Run(lines, ds, st) == if st.cursor == |lines| then st else st.(cursor := st.cursor + 1)
  {
  }

  /** `rc` starts false and is only ever combined with `&=`, so the public
      `readPositions` always reports failure. */
  lemma {:induction false} RunKeepsRcFalse(lines: seq<CppStr>, ds: seq<Directive>, st: Scan)
    requires |ds| == |lines| && st.cursor <= |lines| && !st.header.rc
    ensures !Run(lines, ds, st).header.rc
    decreases |lines| - st.cursor
  {
    if st.cursor < |lines| && !(st.hasPos && st.header.hasPosNum) {
      var next := Handle(lines, ds, st.(cursor := st.cursor + 1));
      RunKeepsRcFalse(lines, ds, next);
      assert Run(lines, ds, st) == Run(lines, ds, next);
    }
  }

  /** The header variables after a run of directives none of which is a
      "Positions" line. */
  function FoldHeader(ds: seq<Directive>, h: Header): Header
    decreases |ds|
  {
    if ds == [] then h else FoldHeader(ds[1..], HeaderEffect(h, ds[0]))
  }

  /** Before the first "Positions" line the loop never stops early: it just
      folds the header lines into the header variables. */
  lemma {:induction false} HeaderPrefix(lines: seq<CppStr>, ds: seq<Directive>, c: nat, n: nat, h: Header, bs: seq<Block>)
    requires |ds| == |lines| && c + n <= |lines|
    requires forall j :: c <= j < c + n ==> !ds[j].PositionsDirective?
    ensures Run(lines, ds, Scan(c, false, h, bs))
         == Run(lines, ds, Scan(c + n, false, FoldHeader(ds[c..c + n], h), bs))
    decreases n
  {
    if n > 0 {
      var h1 := HeaderEffect(h, ds[c]);
      RunHeaderStep(lines, ds, Scan(c, false, h, bs), h1);
      HeaderPrefix(lines, ds, c + 1, n - 1, h1, bs);
      assert ds[c..c + n][0] == ds[c];
      assert ds[c..c + n][1..] == ds[c + 1..c + n];
    } else {
      assert ds[c..c] == [];
    }
  }

  /** A count or unit directive, the two that set `hasPosNum`. */
  predicate SetsHasPosNum(d: Directive) {
    d.CountDirective? || d.UnitDirective?
  }

  /** `hasPosNum` is set by the first count or unit line. */
  lemma {:induction false} FoldHeaderHasPosNum(ds: seq<Directive>, h: Header)
    ensures FoldHeader(ds, h).hasPosNum <==> h.hasPosNum || exists i :: 0 <= i < |ds| && SetsHasPosNum(ds[i])
    decreases |ds|
  {
    if ds != [] {
      FoldHeaderHasPosNum(ds[1..], HeaderEffect(h, ds[0]));
      if exists i :: 0 <= i < |ds| && SetsHasPosNum(ds[i]) {
        var i :| 0 <= i < |ds| && SetsHasPosNum(ds[i]);
        if i > 0 { assert ds[1..][i - 1] == ds[i]; }
      }
      forall i | 0 <= i < |ds| - 1 ensures ds[1..][i] == ds[i + 1] { }
    }
  }

  /** Without a "NumberPositions=" line the count keeps its initial value. */
  lemma {:induction false} FoldHeaderKeepsCount(ds: seq<Directive>, h: Header)
    requires forall i :: 0 <= i < |ds| ==> !ds[i].CountDirective?
    ensures FoldHeader(ds, h).count == h.count
    decreases |ds|
  {
    if ds != [] {
      assert forall i :: 0 <= i < |ds| - 1 ==> ds[1..][i] == ds[i + 1];
      FoldHeaderKeepsCount(ds[1..], HeaderEffect(h, ds[0]));
    }
  }

  /** Without a "UnitPosition" line the factor keeps its initial value. */
  lemma {:induction false} FoldHeaderKeepsFactor(ds: seq<Directive>, h: Header)
    requires forall i :: 0 <= i < |ds| ==> !ds[i].UnitDirective?
    ensures FoldHeader(ds, h).factor == h.factor
    decreases |ds|
  {
    if ds != [] {
      assert forall i :: 0 <= i < |ds| - 1 ==> ds[1..][i] == ds[i + 1];
      FoldHeaderKeepsFactor(ds[1..], HeaderEffect(h, ds[0]));
    }
  }

  /** The directive kinds follow the line kinds. */
  lemma {:induction false} ParseLineKind(line: CppStr, num: NumParse)
    ensures ParseLine(line, num).PositionsDirective? <==> Classify(line) == PositionsLine
    ensures ParseLine(line, num).CountDirective? <==> Classify(line) == CountLine
    ensures ParseLine(line, num).UnitDirective? <==> Classify(line) == UnitLine
  {
  }

  /** Where the parts of `header + [posLine] + rest` sit, and their
      directives. */
  lemma {:induction false} ThreeParts(header: seq<CppStr>, posLine: CppStr, rest: seq<CppStr>, n: nat, num: NumParse)
    requires n <= |rest|
    ensures var lines := header + [posLine] + rest;
            var ds := Directives(lines, num);
            && lines[0..|header|] == header && lines[|header|] == posLine
            && lines[|header| + 1..|header| + 1 + n] == rest[..n]
            && ds[0..|header|] == Directives(header, num)
            && ds[|header|] == ParseLine(posLine, num)
  {
    var lines := header + [posLine] + rest;
    assert lines[0..|header|] == header;
    DirectivesOfPart(lines, 0, |header|, num);
  }

  /** The directives of header lines that are not "Positions" lines. */
  lemma {:induction false} HeaderDirectives(header: seq<CppStr>, num: NumParse)
    requires forall i :: 0 <= i < |header| ==> Classify(header[i]) != PositionsLine
    ensures var hs := Directives(header, num);
            (forall i :: 0 <= i < |hs| ==> !hs[i].PositionsDirective?)
            && ((forall i :: 0 <= i < |header| ==> Classify(header[i]) != CountLine)
                ==> forall i :: 0 <= i < |hs| ==> !hs[i].CountDirective?)
            && ((exists i :: 0 <= i < |header| && Classify(header[i]) in {CountLine, UnitLine})
                ==> exists i :: 0 <= i < |hs| && SetsHasPosNum(hs[i]))
  {
    var hs := Directives(header, num);
    forall i | 0 <= i < |header| ensures hs[i] == ParseLine(header[i], num) { }
    forall i | 0 <= i < |header| ensures !hs[i].PositionsDirective? {
      ParseLineKind(header[i], num);
    }
    if forall i :: 0 <= i < |header| ==> Classify(header[i]) != CountLine {
      forall i | 0 <= i < |header| ensures !hs[i].CountDirective? {
        ParseLineKind(header[i], num);
      }
    }
    if exists i :: 0 <= i < |header| && Classify(header[i]) in {CountLine, UnitLine} {
      var i :| 0 <= i < |header| && Classify(header[i]) in {CountLine, UnitLine};
      ParseLineKind(header[i], num);
      assert SetsHasPosNum(hs[i]);
    }
  }

  /** The loop over `header + [posLine] + rest` folds the header and then
      meets the "Positions" line. */
  lemma {:induction false} FoldThenPositions(header: seq<CppStr>, posLine: CppStr, rest: seq<CppStr>, n: nat, num: NumParse)
    requires forall i :: 0 <= i < |header| ==> Classify(header[i]) != PositionsLine
    requires Classify(posLine) == PositionsLine
    requires n <= |rest|
    ensures var lines := header + [posLine] + rest;
            var ds := Directives(lines, num);
            && |ds| == |lines|
            && Run(lines, ds, Scan(0, false, InitHeader, []))
               == Run(lines, ds, Scan(|header|, false, FoldHeader(Directives(header, num), InitHeader), []))
            && ds[|header|].PositionsDirective?
            && lines[|header| + 1..|header| + 1 + n] == rest[..n]
  {
    var lines := header + [posLine] + rest;
    var ds := Directives(lines, num);
    ThreeParts(header, posLine, rest, n, num);
    HeaderDirectives(header, num);
    forall j | 0 <= j < |header| ensures !ds[j].PositionsDirective? {
      assert ds[j] == ds[0..|header|][j];
    }
    HeaderPrefix(lines, ds, 0, |header|, InitHeader, []);
    ParseLineKind(posLine, num);
  }

  /** A well-formed file: a header holding at least one count or unit line and
      no "Positions" line, then a "Positions" line, then the block. Exactly
      one block of `min(count, |block|)` lines is read, in line order, with
      the header's factor; a shorter block is not an error, the loop stops
      right after it, and `rc` is false. */
  lemma {:induction false} ReadHeaderThenBlock(header: seq<CppStr>, posLine: CppStr, block: seq<CppStr>, num: NumParse)
    requires forall i :: 0 <= i < |header| ==> Classify(header[i]) != PositionsLine
    requires exists i :: 0 <= i < |header| && Classify(header[i]) in {CountLine, UnitLine}
    requires Classify(posLine) == PositionsLine
    ensures var lines := header + [posLine] + block;
            var h := FoldHeader(Directives(header, num), InitHeader);
            var n := Taken(h.count, |block|);
            var r := Run(lines, Directives(lines, num), Scan(0, false, InitHeader, []));
            && r.blocks == [Block(block[..n], h.factor)]
            && r.cursor == (if n < |block| then |header| + 2 + n else |header| + 1 + n)
            && !r.header.rc
  {
    var lines := header + [posLine] + block;
    var ds := Directives(lines, num);
    var hs := Directives(header, num);
    var h := FoldHeader(hs, InitHeader);
    var n := Taken(h.count, |block|);
    FoldThenPositions(header, posLine, block, n, num);
    HeaderDirectives(header, num);
    FoldHeaderHasPosNum(hs, InitHeader);
    BlockThenStop(lines, ds, |header|, h, n, block[..n]);
    RunKeepsRcFalse(lines, ds, Scan(0, false, InitHeader, []));
  }

  /** From a "Positions" line met while `hasPosNum` holds, the loop reads the
      block of the next `n` lines and stops. */
  lemma {:induction false} BlockThenStop(lines: seq<CppStr>, ds: seq<Directive>, c: nat, h: Header, n: nat, blk: seq<CppStr>)
    requires |ds| == |lines| && c < |lines| && ds[c].PositionsDirective? && h.hasPosNum
    requires n == Taken(h.count, |lines| - (c + 1))
    requires blk == lines[c + 1..c + 1 + n]
    ensures var r := Run(lines, ds, Scan(c, false, h, []));
            && r.blocks == [Block(blk, h.factor)] && r.header == h
            && r.cursor == (if c + 1 + n < |lines| then c + 2 + n else c + 1 + n)
  {
    var next := Scan(c + 1 + n, true, h, [Block(blk, h.factor)]);
    assert [] + [Block(blk, h.factor)] == next.blocks;
    RunPositionsStep(lines, ds, Scan(c, false, h, []), n, next);
    RunStops(lines, ds, next);
  }

  /** The points of the single block of `ReadHeaderThenBlock`: one per line,
      each decoded with the header's factor. */
  lemma {:induction false} DecodedSingleBlock(ls: seq<CppStr>, factor: real, num: NumParse)
    ensures var ps := Decoded([Block(ls, factor)], num);
            |ps| == |ls| && forall i :: 0 <= i < |ls| ==> ps[i] == DecodeLine(ls[i], factor, num)
  {
    assert [Block(ls, factor)][..0] == [];
  }

  /** While no count line has been seen the count is 0, so every "Positions"
      line reads an empty block; once `hasPos` and `hasPosNum` both hold the
      loop stops. Hence a state with `hasPos` and a zero count (or `hasPosNum`)
      reads no coordinate line any more. */
  lemma {:induction false} NoMorePoints(lines: seq<CppStr>, ds: seq<Directive>, st: Scan)
    requires |ds| == |lines| && st.cursor <= |lines|
    requires st.hasPos && (st.header.count == 0 || st.header.hasPosNum)
    ensures var r := Run(lines, ds, st);
            && st.blocks <= r.blocks
            && forall i :: |st.blocks| <= i < |r.blocks| ==> r.blocks[i].lines == []
    decreases |lines| - st.cursor
  {
    if st.cursor < |lines| && !st.header.hasPosNum {
      var next := Handle(lines, ds, st.(cursor := st.cursor + 1));
      NoMorePoints(lines, ds, next);
      var r := Run(lines, ds, st);
      assert r == Run(lines, ds, next);
      if ds[st.cursor].PositionsDirective? {
        assert lines[st.cursor + 1..st.cursor + 1] == [];
        assert next.blocks == st.blocks + [Block([], st.header.factor)];
      }
    }
  }

  /** One more block appends its points. */
  lemma {:induction false} DecodedSnoc(bs: seq<Block>, b: Block, num: NumParse)
    ensures Decoded(bs + [b], num) == Decoded(bs, num) + DecodeLines(b.lines, b.factor, num)
  {
    assert (bs + [b])[..|bs|] == bs;
  }

  /** The points appended by one more block extend the output. */
  lemma {:induction false} AppendBlock(points: seq<Point3>, prev: seq<Point3>, out: seq<Point3>, bs: seq<Block>, b: Block, num: NumParse)
    requires prev == points + Decoded(bs, num)
    requires out == prev + DecodeLines(b.lines, b.factor, num)
    ensures out == points + Decoded(bs + [b], num)
  {
    DecodedSnoc(bs, b, num);
  }

  /** Empty blocks append no point. */
  lemma {:induction false} DecodedEmptyBlocks(bs: seq<Block>, more: seq<Block>, num: NumParse)
    requires bs <= more
    requires forall i :: |bs| <= i < |more| ==> more[i].lines == []
    ensures Decoded(more, num) == Decoded(bs, num)
    decreases |more|
  {
    if |more| > |bs| {
      var init := more[..|more| - 1];
      assert bs <= init;
      DecodedEmptyBlocks(bs, init, num);
    } else {
      assert more == bs;
    }
  }

  /** If no "NumberPositions=" line comes before the first "Positions" line,
      no point is decoded at all, whatever follows. */
  lemma {:induction false} NoCountLineNoPoints(header: seq<CppStr>, posLine: CppStr, rest: seq<CppStr>, num: NumParse)
    requires forall i :: 0 <= i < |header| ==> Classify(header[i]) !in {PositionsLine, CountLine}
    requires Classify(posLine) == PositionsLine
    ensures var lines := header + [posLine] + rest;
            Decoded(Run(lines, Directives(lines, num), Scan(0, false, InitHeader, [])).blocks, num) == []
  {
    var lines := header + [posLine] + rest;
    var ds := Directives(lines, num);
    var hs := Directives(header, num);
    FoldThenPositions(header, posLine, rest, 0, num);
    HeaderDirectives(header, num);
    FoldHeaderKeepsCount(hs, InitHeader);
    ZeroCountBlock(lines, ds, |header|, FoldHeader(hs, InitHeader), num);
  }

  /** A "Positions" line met while the count is 0 reads an empty block, and
      no later line reads any coordinate. */
  lemma {:induction false} ZeroCountBlock(lines: seq<CppStr>, ds: seq<Directive>, c: nat, h: Header, num: NumParse)
    requires |ds| == |lines| && c < |lines| && ds[c].PositionsDirective? && h.count == 0
    ensures Decoded(Run(lines, ds, Scan(c, false, h, [])).blocks, num) == []
  {
    assert lines[c + 1..c + 1] == [];
    var st := Scan(c + 1, true, h, [Block([], h.factor)]);
    assert [] + [Block([], h.factor)] == st.blocks;
    RunPositionsStep(lines, ds, Scan(c, false, h, []), 0, st);
    NoMorePoints(lines, ds, st);
    var r := Run(lines, ds, st);
    DecodedEmptyBlocks([], r.blocks, num);
  }

  //----------------------------------------------------------------------------
  // The reading loops, on the stream's lines and its read position

  /** The private `readPositions(points, countPos, factor)` on a stream at
      line `cursor`: reads up to `countPos` further lines, appends one point
      per line read, reports success and answers the new position. */
  method DecodeBlock(lines: seq<CppStr>, cursor: nat, points: seq<Point3>, countPos: nat, factor: real, num: NumParse)
    returns (ok: bool, out: seq<Point3>, next: nat)
    requires cursor <= |lines|
    ensures ok
    ensures next == cursor + Taken(countPos, |lines| - cursor)
    ensures out == points + DecodeLines(lines[cursor..next], factor, num)
  {
    out := points;
    next := cursor;
    var i: nat := 0;
    assert lines[cursor..cursor] == [];
    while i < countPos && next < |lines|
      invariant cursor <= next <= |lines|
      invariant next == cursor + i && i <= countPos
      invariant out == points + DecodeLines(lines[cursor..next], factor, num)
    {
      var line := lines[next];
      DecodeLinesSnoc(lines, cursor, next, factor, num, points, out);
      out := out + [DecodeLine(line, factor, num)];
      next := next + 1;
      i := i + 1;
    }
    ok := true;
  }

  /** The body of the header loop once `line` is read (the stream is at
      `cursor`, just past it) and the loop goes on: the `if / else if` chain
      on the line's prefix. It does what `Handle` says, and the output stays
      the points of the blocks read. */
  method HandleLine(lines: seq<CppStr>, cursor: nat, line: CppStr, ghost ds: seq<Directive>,
                    hasPosNum: bool, rc: bool, countPos: nat, factor: real, hasPos: bool,
                    ghost points: seq<Point3>, out: seq<Point3>, ghost blocks: seq<Block>, num: NumParse)
    returns (hasPosNum': bool, rc': bool, countPos': nat, factor': real, hasPos': bool,
             out': seq<Point3>, ghost blocks': seq<Block>, cursor': nat)
    requires 1 <= cursor <= |lines| && lines[cursor - 1] == line
    requires ds == Directives(lines, num)
    requires out == points + Decoded(blocks, num)
    ensures Handle(lines, ds, Scan(cursor, hasPos, Header(hasPosNum, rc, countPos, factor), blocks))
            == Scan(cursor', hasPos', Header(hasPosNum', rc', countPos', factor'), blocks')
    ensures out' == points + Decoded(blocks', num)
  {
    hasPosNum', rc', countPos', factor', hasPos', out', blocks', cursor' :=
      hasPosNum, rc, countPos, factor, hasPos, out, blocks, cursor;
    ghost var st := Scan(cursor, hasPos, Header(hasPosNum, rc, countPos, factor), blocks);
    ghost var d := ds[cursor - 1];
    assert d == ParseLine(line, num);
    DirectiveOfLine(line, num);
    if Find(line, "NumberPositions=") == 0 {
      var r := ReadNumPos(line, num.toSize);
      rc' := rc && r.Some?;
      if r.Some? {
        countPos' := r.value;
      }
      hasPosNum' := true;
      HandleHeaderLine(lines, ds, st, Header(hasPosNum', rc', countPos', factor'));
    } else if Find(line, UNIT_KEYWORD) == 0 {
      var r := ReadUnitPos(line);
      rc' := rc && r.0;
      factor' := r.1;
      hasPosNum' := true;
      HandleHeaderLine(lines, ds, st, Header(hasPosNum', rc', countPos', factor'));
    } else if Find(line, "Positions") == 0 {
      var ok;
      ok, out', blocks', cursor' := PositionsTurn(lines, cursor, countPos, factor, points, out, blocks, num);
      rc' := rc && ok;
      hasPos' := true;
      HandlePositionsLine(lines, ds, st, cursor', blocks');
    } else {
      HandleHeaderLine(lines, ds, st, st.header);
    }
  }

  /** The branch of the chain a line takes, told by the `find(p) == 0` tests
      the loop body makes. */
  lemma {:induction false} DirectiveOfLine(line: CppStr, num: NumParse)
    ensures var d := ParseLine(line, num);
            if Find(line, "NumberPositions=") == 0 then d == CountDirective(ReadNumPos(line, num.toSize))
            else if Find(line, UNIT_KEYWORD) == 0 then d == UnitDirective(ReadUnitPos(line))
            else if Find(line, "Positions") == 0 then d == PositionsDirective
            else d == IgnoredLine
  {
    FindZeroIsPrefix(line, "NumberPositions=");
    FindZeroIsPrefix(line, UNIT_KEYWORD);
    FindZeroIsPrefix(line, "Positions");
  }

  /** `Handle` on a count, unit or ignored line changes the header variables
      only. */
  lemma {:induction false} HandleHeaderLine(lines: seq<CppStr>, ds: seq<Directive>, st: Scan, h: Header)
    requires |ds| == |lines| && 1 <= st.cursor <= |lines| && !ds[st.cursor - 1].PositionsDirective?
    requires h == HeaderEffect(st.header, ds[st.cursor - 1])
    ensures Handle(lines, ds, st) == Scan(st.cursor, st.hasPos, h, st.blocks)
  {
  }

  /** `Handle` on a "Positions" line reads a block and sets `hasPos`. */
  lemma {:induction false} HandlePositionsLine(lines: seq<CppStr>, ds: seq<Directive>, st: Scan,
                                               cursor': nat, blocks': seq<Block>)
    requires |ds| == |lines| && 1 <= st.cursor <= |lines| && ds[st.cursor - 1].PositionsDirective?
    requires cursor' == st.cursor + Taken(st.header.count, |lines| - st.cursor)
    requires blocks' == st.blocks + [Block(lines[st.cursor..cursor'], st.header.factor)]
    ensures Handle(lines, ds, st) == Scan(cursor', true, st.header, blocks')
  {
  }

  /** The "Positions" branch of the header loop: the block decoder reads the
      next `Taken(countPos, rest)` lines, and the output stays the points of
      the blocks read, now one more. */
  method PositionsTurn(lines: seq<CppStr>, cursor: nat, countPos: nat, factor: real,
                       ghost points: seq<Point3>, out: seq<Point3>, ghost blocks: seq<Block>, num: NumParse)
    returns (ok: bool, out': seq<Point3>, ghost blocks': seq<Block>, cursor': nat)
    requires cursor <= |lines|
    requires out == points + Decoded(blocks, num)
    ensures ok
    ensures cursor' == cursor + Taken(countPos, |lines| - cursor)
    ensures blocks' == blocks + [Block(lines[cursor..cursor'], factor)]
    ensures out' == points + Decoded(blocks', num)
  {
    ok, out', cursor' := DecodeBlock(lines, cursor, out, countPos, factor, num);
    ghost var b := Block(lines[cursor..cursor'], factor);
    AppendBlock(points, out, out', blocks, b, num);
    blocks' := blocks + [b];
  }

  /** The header loop of the public `readPositions(points)` on a stream at
      line `start`: its outcome is `Run`, the points of the blocks it reads
      are appended, and it always returns false. */
  method HeaderLoop(lines: seq<CppStr>, start: nat, points: seq<Point3>, num: NumParse)
    returns (rc: bool, out: seq<Point3>, cursor: nat)
    requires start <= |lines|
    ensures var r := Run(lines, Directives(lines, num), Scan(start, false, InitHeader, []));
            rc == r.header.rc && out == points + Decoded(r.blocks, num) && cursor == r.cursor
    ensures !rc
  {
    ghost var ds := Directives(lines, num);
    ghost var goal := Run(lines, ds, Scan(start, false, InitHeader, []));
    RunKeepsRcFalse(lines, ds, Scan(start, false, InitHeader, []));
    cursor := start;
    rc := false;
    var hasPosNum, hasPos := false, false;
    var countPos: nat := 0;
    var factor: real := 1.0;
    out := points;
    ghost var blocks: seq<Block> := [];
    while cursor < |lines|
      invariant cursor <= |lines|
      invariant Run(lines, ds, Scan(cursor, hasPos, Header(hasPosNum, rc, countPos, factor), blocks)) == goal
      invariant out == points + Decoded(blocks, num)
      decreases |lines| - cursor
    {
      ghost var before := Scan(cursor, hasPos, Header(hasPosNum, rc, countPos, factor), blocks);
      var line := lines[cursor];
      cursor := cursor + 1;
      if hasPos && hasPosNum {
        RunStops(lines, ds, before);
        break;
      }
      RunTurn(lines, ds, before);
      hasPosNum, rc, countPos, factor, hasPos, out, blocks, cursor :=
        HandleLine(lines, cursor, line, ds, hasPosNum, rc, countPos, factor, hasPos, points, out, blocks, num);
    }
  }

  //----------------------------------------------------------------------------
  // The reader object

  /** A `ReaderBND` over an opened stream: the file's lines and the read
      position of `m_ifs`. */
  class ReaderBND {
    const lines: seq<CppStr>
    var cursor: nat

    ghost predicate Valid()
      reads this
    {
      cursor <= |lines|
    }

    /** The stream positioned at the first line; the "Could not open file!"
        exception of the source is not part of this model. */
    constructor (fileLines: seq<CppStr>)
      ensures lines == fileLines && cursor == 0 && Valid()
    {
      lines := fileLines;
      cursor := 0;
    }

    /** The public `readPositions(points)`: runs the header loop from the
        current position and leaves the stream where the loop stopped. */
    method ReadPositions(points: seq<Point3>, num: NumParse) returns (rc: bool, out: seq<Point3>)
      requires Valid()
      modifies this
      ensures Valid()
      ensures var r := Run(lines, Directives(lines, num), Scan(old(cursor), false, InitHeader, []));
              rc == r.header.rc && out == points + Decoded(r.blocks, num) && cursor == r.cursor
      ensures !rc
    {
      rc, out, cursor := HeaderLoop(lines, cursor, points, num);
    }
  }
}
