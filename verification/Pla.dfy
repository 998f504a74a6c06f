/** The PLA text of one output, written and read back. */
module Pla {
  import opened Bits
  import opened Cube32
  import opened Esop
  import opened TwoLvl32

  // ---- Text ----

  /** The characters up to the first `d`, or all of them. */
  function Until(s: string, d: char): (r: string)
    ensures r <= s && d !in r
    ensures |r| < |s| ==> s[|r|] == d
  {
    if s == [] || s[0] == d then [] else [s[0]] + Until(s[1..], d)
  }

  predicate IsDigit(c: char) {
    '0' <= c <= '9'
  }

  predicate IsSpace(c: char) {
    c in " \t\n\r" || c == 11 as char || c == 12 as char
  }

  function DigitValue(c: char): nat
    requires IsDigit(c)
  {
    c as nat - '0' as nat
  }

  /** The leading decimal digits. */
  function DigitPrefix(s: string): (r: string)
    ensures r <= s && forall i | 0 <= i < |r| :: IsDigit(r[i])
    ensures |r| < |s| ==> !IsDigit(s[|r|])
  {
    if s == [] || !IsDigit(s[0]) then [] else [s[0]] + DigitPrefix(s[1..])
  }

  function Decimal(s: string): nat
    requires forall i | 0 <= i < |s| :: IsDigit(s[i])
  {
    if s == [] then 0 else 10 * Decimal(s[..|s| - 1]) + DigitValue(s[|s| - 1])
  }

  function DigitChar(d: nat): (c: char)
    requires d < 10
    ensures IsDigit(c) && DigitValue(c) == d
  {
    (d + '0' as nat) as char
  }

  /** A number as decimal digits. */
  function Digits(n: nat): (r: string)
    ensures |r| > 0 && forall i | 0 <= i < |r| :: IsDigit(r[i])
  {
    if n < 10 then [DigitChar(n)] else Digits(n / 10) + [DigitChar(n % 10)]
  }

  lemma {:induction false} DecimalDigits(n: nat)
    ensures Decimal(Digits(n)) == n
  {
    hide DigitChar, DigitValue, IsDigit;
    if n < 10 {
      DecimalAppend([], DigitChar(n));
      assert [] + [DigitChar(n)] == [DigitChar(n)];
    } else {
      DecimalDigits(n / 10);
      DecimalAppend(Digits(n / 10), DigitChar(n % 10));
    }
  }

  lemma DecimalAppend(s: string, c: char)
    requires (forall i | 0 <= i < |s| :: IsDigit(s[i])) && IsDigit(c)
    ensures Decimal(s + [c]) == 10 * Decimal(s) + DigitValue(c)
    ensures Decimal([]) == 0
  {
    hide IsDigit, DigitValue;
    assert (s + [c])[..|s|] == s;
  }

  lemma {:induction false} UntilAt(p: string, d: char, rest: string)
    requires d !in p
    ensures Until(p + [d] + rest, d) == p
  {
    var s := p + [d] + rest;
    if p != [] {
      assert s[1..] == p[1..] + [d] + rest;
      UntilAt(p[1..], d, rest);
    }
  }

  lemma {:induction false} DigitPrefixAt(p: string, c: char, rest: string)
    requires (forall i | 0 <= i < |p| :: IsDigit(p[i])) && !IsDigit(c)
    ensures DigitPrefix(p + [c] + rest) == p
  {
    var s := p + [c] + rest;
    if p != [] {
      assert s[1..] == p[1..] + [c] + rest;
      DigitPrefixAt(p[1..], c, rest);
    }
  }

  // ---- The input stream ----

  /** What is left to read, and whether no end of text and no failure has been met. */
  datatype Input = Input(rest: string, good: bool)

  /** `std::getline(buffer, line, d)`. */
  function AfterLine(st: Input, d: char): (string, Input) {
    if !st.good then ("", st)
    else
      var line := Until(st.rest, d);
      if |line| < |st.rest| then (line, Input(st.rest[|line| + 1..], true)) else (line, Input("", false))
  }

  const NUL: char := 0 as char

  /** `buffer.peek()`, with the character 0 standing for the end of the text. */
  function AfterPeek(st: Input): (char, Input) {
    if !st.good || st.rest == "" then (NUL, Input(st.rest, false)) else (st.rest[0], st)
  }

  function SkipSpace(s: string): (r: string)
    ensures |r| <= |s|
  {
    if s != [] && IsSpace(s[0]) then SkipSpace(s[1..]) else s
  }

  const WORD: nat := 0x1_0000_0000

  predicate IsSign(c: char) {
    c == '+' || c == '-'
  }

  /** `buffer >> n` for an unsigned 32-bit `n` that holds `before`. A minus sign negates modulo 2^32. */
  function AfterNumber(st: Input, before: nat): (nat, Input) {
    if !st.good then (before, st)
    else
      var s := SkipSpace(st.rest);
      if s == "" then (before, Input("", false))
      else
        var body := if IsSign(s[0]) then s[1..] else s;
        var ds := DigitPrefix(body);
        var rest := body[|ds|..];
        if ds == "" then (0, Input(rest, false))
        else if Decimal(ds) >= WORD then (WORD - 1, Input(rest, false))
        else (if s[0] == '-' then (WORD - Decimal(ds)) % WORD else Decimal(ds), Input(rest, rest != ""))
  }

  /** `line[i]`, which is the character 0 at the end of the line. */
  function CharAt(line: string, i: nat): char {
    if i < |line| then line[i] else NUL
  }

  // ---- The header ----

  datatype Header = Header(nInputs: nat, nOutputs: nat, nTerms: nat, kindText: string)

  /** One line of the header, from its first character on. */
  function Directive(st: Input, h: Header): (Header, Input) {
    var (line, st1) := AfterLine(st, ' ');
    if CharAt(line, 0) == '#' then (h, AfterLine(st1, '\n').1)
    else if CharAt(line, 1) == 't' then
      var (text, st2) := AfterLine(st1, '\n');
      (h.(kindText := if st1.good then text else h.kindText), st2)
    else
      var (h1, st2) :=
        if CharAt(line, 1) == 'i' then var (n, t) := AfterNumber(st1, h.nInputs); (h.(nInputs := n), t)
        else if CharAt(line, 1) == 'o' then var (n, t) := AfterNumber(st1, h.nOutputs); (h.(nOutputs := n), t)
        else if CharAt(line, 1) == 'p' then var (n, t) := AfterNumber(st1, h.nTerms); (h.(nTerms := n), t)
        else (h, st1);
      (h1, AfterLine(st2, '\n').1)
  }

  lemma LineShrinks(st: Input, d: char)
    ensures |AfterLine(st, d).1.rest| <= |st.rest|
    ensures st.good && st.rest != "" ==> |AfterLine(st, d).1.rest| < |st.rest|
  {
  }

  lemma NumberShrinks(st: Input, before: nat)
    ensures |AfterNumber(st, before).1.rest| <= |st.rest|
  {
  }

  lemma DirectiveShrinks(st: Input, h: Header)
    requires st.good && st.rest != ""
    ensures |Directive(st, h).1.rest| < |st.rest|
  {
    hide AfterLine, AfterNumber, CharAt;
    LineShrinks(st, ' ');
    var st1 := AfterLine(st, ' ').1;
    LineShrinks(st1, '\n');
    NumberShrinks(st1, h.nInputs);
    NumberShrinks(st1, h.nOutputs);
    NumberShrinks(st1, h.nTerms);
    LineShrinks(AfterNumber(st1, h.nInputs).1, '\n');
    LineShrinks(AfterNumber(st1, h.nOutputs).1, '\n');
    LineShrinks(AfterNumber(st1, h.nTerms).1, '\n');
  }

  predicate StartsDirective(st: Input) {
    AfterPeek(st).0 == '.' || AfterPeek(st).0 == '#'
  }

  /** Header lines as long as the next character opens one. */
  function HeaderFrom(st: Input, h: Header): (Header, Input)
    decreases |st.rest|
  {
    if StartsDirective(st) then
      DirectiveShrinks(st, h);
      var (h1, st1) := Directive(st, h);
      HeaderFrom(st1, h1)
    else (h, AfterPeek(st).1)
  }

  function Lower(c: char): char {
    if 'A' <= c <= 'Z' then (c as nat + 32) as char else c
  }

  predicate Contains(s: string, t: string) {
    t <= s || (s != "" && Contains(s[1..], t))
  }

  function KindOf(kindText: string): Kind {
    var lower := seq(|kindText|, i requires 0 <= i < |kindText| => Lower(kindText[i]));
    if Contains(lower, "esop") then ESOP else if Contains(lower, "sop") then SOP else UNDEF
  }

  // ---- The rows ----

  function CubeOf(s: string): Cube {
    if s == "" then CUBE_ONE
    else
      var k := |s| - 1;
      var c := CubeOf(s[..k]);
      if s[k] == '1' then AddLit(c, k, true) else if s[k] == '0' then AddLit(c, k, false) else c
  }

  /** The cube joins the list of every output whose column holds a 1. */
  function AddTo(cubes: seq<seq<Cube>>, c: Cube, output: string): (r: seq<seq<Cube>>)
    requires |output| == |cubes|
    ensures |r| == |cubes|
  {
    seq(|cubes|, k requires 0 <= k < |cubes| => if output[k] == '1' then cubes[k] + [c] else cubes[k])
  }

  /** A literal in a column from 32 on, for which the shifts are undefined. */
  predicate WideLiteral(input: string) {
    exists k | WIDTH <= k < |input| :: input[k] == '0' || input[k] == '1'
  }

  /** `Endless`: at the end of the text the loop repeats an empty row for ever. `TooWide`: the reading meets a row
      with a literal in a column from 32 on. */
  datatype Outcome = Finished(f: TwoLvl) | Endless | TooWide

  /** The rows up to the end marker or to the first row of another width. */
  function RowsFrom(st: Input, kind: Kind, nIn: nat, nOut: nat, cubes: seq<seq<Cube>>): Outcome
    requires |cubes| == nOut
    decreases |st.rest|, st.good
  {
    var (input, st1) := AfterLine(st, ' ');
    var (output, st2) := AfterLine(st1, '\n');
    if (CharAt(input, 0) == '.' && CharAt(input, 1) == 'e') || |input| != nIn || |output| != nOut then
      Finished(TwoLvl(kind, nIn, cubes))
    else if WideLiteral(input) then TooWide
    else if !st.good then Endless
    else
      LineShrinks(st, ' ');
      LineShrinks(st1, '\n');
      RowsFrom(st2, kind, nIn, nOut, AddTo(cubes, CubeOf(input), output))
  }

  function ReadText(text: string): Outcome {
    var (h, st) := HeaderFrom(Input(text, true), Header(0, 0, 0, ""));
    RowsFrom(st, KindOf(h.kindText), h.nInputs, h.nOutputs, seq(h.nOutputs, _ => []))
  }

  // ---- Writing ----

  function LitChar(l: Literal): char {
    match l
    case Absent => '-'
    case Negative => '0'
    case Positive => '1'
  }

  /** `cube32::str`. */
  function Str(c: Cube, n: nat): (s: string)
    ensures |s| == n && forall i | 0 <= i < n :: s[i] == LitChar(Lit(c, i))
  {
    seq(n, i requires 0 <= i < n => LitChar(Lit(c, i)))
  }

  function Rows(cubes: seq<Cube>, n: nat): string {
    if cubes == [] then "" else Str(cubes[0], n) + " 1\n" + Rows(cubes[1..], n)
  }

  function PlaText(cubes: seq<Cube>, n: nat): string {
    ".i " + Digits(n) + "\n" + ".o 1\n" + ".p " + Digits(|cubes|) + "\n" + Rows(cubes, n) + ".e\n"
  }

  // ---- Reading back what was written ----

  lemma LineAt(p: string, d: char, rest: string)
    requires d !in p
    ensures AfterLine(Input(p + [d] + rest, true), d) == (p, Input(rest, true))
  {
    hide Until;
    UntilAt(p, d, rest);
    assert (p + [d] + rest)[|p| + 1..] == rest;
  }

  /** A line break follows the number, so reading stops there. */
  lemma NumberAt(n: nat, rest: string, before: nat)
    ensures AfterNumber(Input(Digits(n) + "\n" + rest, true), before) ==
      (if n < WORD then (n, Input("\n" + rest, true)) else (WORD - 1, Input("\n" + rest, false)))
  {
    hide DigitPrefix, Decimal, Digits;
    var s := Digits(n) + "\n" + rest;
    assert s[0] == Digits(n)[0] && IsDigit(s[0]) && !IsSpace(s[0]);
    assert SkipSpace(s) == s;
    DigitPrefixAt(Digits(n), '\n', rest);
    DecimalDigits(n);
    assert s[|Digits(n)|..] == "\n" + rest;
  }

  lemma NoSpaceInTag(c: char)
    requires c != ' '
    ensures ' ' !in ['.', c]
  {
  }

  /** A header line `.c n`; a number that does not fit leaves the stream failed. */
  lemma NumberLine(c: char, n: nat, rest: string, h: Header)
    requires c == 'i' || c == 'o' || c == 'p'
    ensures var h1 := Directive(Input(['.', c, ' '] + Digits(n) + "\n" + rest, true), h);
      && (n < WORD ==> h1 == (if c == 'i' then h.(nInputs := n) else if c == 'o' then h.(nOutputs := n)
        else h.(nTerms := n), Input(rest, true)))
      && (n >= WORD ==> h1 == (if c == 'i' then h.(nInputs := WORD - 1)
        else if c == 'o' then h.(nOutputs := WORD - 1) else h.(nTerms := WORD - 1), Input("\n" + rest, false)))
  {
    hide AfterNumber, Until, Digits;
    var body := Digits(n) + "\n" + rest;
    NoSpaceInTag(c);
    LineAt(['.', c], ' ', body);
    assert ['.', c, ' '] + Digits(n) + "\n" + rest == ['.', c] + [' '] + body;
    NumberAt(n, rest, h.nInputs);
    NumberAt(n, rest, h.nOutputs);
    NumberAt(n, rest, h.nTerms);
    LineAt("", '\n', rest);
    assert "" + ['\n'] + rest == "\n" + rest;
  }

  lemma DigitsOfOne()
    ensures Digits(1) == "1"
  {
  }

  /** The three header lines lead to the rows. */
  lemma HeaderRead(n: nat, m: nat, body: string)
    requires n < WORD
    ensures var text := ".i " + Digits(n) + "\n" + ".o 1\n" + ".p " + Digits(m) + "\n" + body;
      HeaderFrom(Input(text, true), Header(0, 0, 0, "")) ==
        if m < WORD then HeaderFrom(Input(body, true), Header(n, 1, m, ""))
        else HeaderFrom(Input("\n" + body, false), Header(n, 1, WORD - 1, ""))
  {
    hide Digits, Directive, AfterLine, HeaderFrom;
    DigitsOfOne();
    var l3 := ['.', 'p', ' '] + Digits(m) + "\n" + body;
    var l2 := ['.', 'o', ' '] + Digits(1) + "\n" + l3;
    var l1 := ['.', 'i', ' '] + Digits(n) + "\n" + l2;
    assert l1 == ".i " + Digits(n) + "\n" + ".o 1\n" + ".p " + Digits(m) + "\n" + body;
    NumberLine('i', n, l2, Header(0, 0, 0, ""));
    NumberLine('o', 1, l3, Header(n, 0, 0, ""));
    NumberLine('p', m, body, Header(n, 1, 0, ""));
    assert l1[0] == '.' && l2[0] == '.' && l3[0] == '.';
    HeaderStep(Input(l1, true), Header(0, 0, 0, ""));
    HeaderStep(Input(l2, true), Header(n, 0, 0, ""));
    HeaderStep(Input(l3, true), Header(n, 1, 0, ""));
  }

  lemma HeaderStep(st: Input, h: Header)
    requires StartsDirective(st)
    ensures HeaderFrom(st, h) == HeaderFrom(Directive(st, h).1, Directive(st, h).0)
  {
    hide Directive;
  }

  /** A cube's text denotes the cube. */
  lemma {:induction false} CubeOfStr(c: Cube, n: nat, k: nat)
    requires Canonical(c) && k <= n <= WIDTH
    ensures Canonical(CubeOf(Str(c, n)[..k]))
    ensures forall v: nat | v < WIDTH :: Lit(CubeOf(Str(c, n)[..k]), v) == if v < k then Lit(c, v) else Absent
  {
    hide Has, AddLit, Lit, Canonical, Str;
    if k == 0 {
      EmptyRow();
      assert Str(c, n)[..0] == "";
    } else {
      CubeOfStr(c, n, k - 1);
      assert Str(c, n)[..k][..k - 1] == Str(c, n)[..k - 1];
      var d := CubeOf(Str(c, n)[..k - 1]);
      AddLitLiterals(d, k - 1, true);
      AddLitLiterals(d, k - 1, false);
    }
  }

  lemma EmptyRow()
    ensures Canonical(CUBE_ONE) && forall v: nat | v < WIDTH :: Lit(CUBE_ONE, v) == Absent
  {
    hide Has;
    forall v: nat { HasZero(v); }
  }

  lemma CubeReadBack(c: Cube, n: nat)
    requires Over(c, Below(n)) && n <= WIDTH
    ensures CubeOf(Str(c, n)) == c
  {
    hide Has, Lit, Str;
    CubeOfStr(c, n, n);
    assert Str(c, n)[..n] == Str(c, n);
    forall v: nat | v < WIDTH ensures Lit(CubeOf(Str(c, n)), v) == Lit(c, v) {
      if v >= n { AbsentOutside(c, Below(n), v); }
    }
    LiteralsDetermineCube(CubeOf(Str(c, n)), c);
  }

  lemma StrChars(c: Cube, n: nat)
    ensures ' ' !in Str(c, n) && '.' !in Str(c, n) && '#' !in Str(c, n)
  {
    hide Has;
  }

  lemma RowRead(c: Cube, n: nat, rest: string, kind: Kind, sofar: seq<Cube>)
    requires Over(c, Below(n)) && n <= WIDTH
    ensures RowsFrom(Input(Str(c, n) + " 1\n" + rest, true), kind, n, 1, [sofar]) ==
      RowsFrom(Input(rest, true), kind, n, 1, [sofar + [c]])
  {
    hide Str, AfterLine, Over, CubeOf, RowsFrom, AddTo;
    var row := Str(c, n);
    StrChars(c, n);
    CubeReadBack(c, n);
    assert row + " 1\n" + rest == row + [' '] + ("1" + ['\n'] + rest);
    LineAt(row, ' ', "1" + ['\n'] + rest);
    LineAt("1", '\n', rest);
    assert CharAt(row, 0) != '.';
    RowCases(Input(row + " 1\n" + rest, true), kind, n, 1, [sofar]);
    OneMoreCube(sofar, c);
  }

  lemma OneMoreCube(sofar: seq<Cube>, c: Cube)
    ensures AddTo([sofar], c, "1") == [sofar + [c]]
  {
  }

  /** Rows are read in order, whatever comes after them. */
  lemma {:induction false} RowsThen(cubes: seq<Cube>, n: nat, tail: string, kind: Kind, sofar: seq<Cube>)
    requires AllOver(cubes, Below(n)) && n <= WIDTH
    ensures RowsFrom(Input(Rows(cubes, n) + tail, true), kind, n, 1, [sofar]) ==
      RowsFrom(Input(tail, true), kind, n, 1, [sofar + cubes])
    decreases |cubes|
  {
    hide Str, Over, RowsFrom;
    if cubes == [] {
      assert Rows(cubes, n) + tail == tail && sofar + cubes == sofar;
    } else {
      var rest := Rows(cubes[1..], n) + tail;
      assert Rows(cubes, n) + tail == Str(cubes[0], n) + " 1\n" + rest;
      RowRead(cubes[0], n, rest, kind, sofar);
      RowsThen(cubes[1..], n, tail, kind, sofar + [cubes[0]]);
      assert sofar + [cubes[0]] + cubes[1..] == sofar + cubes;
    }
  }

  lemma RowsRead(cubes: seq<Cube>, n: nat, kind: Kind, sofar: seq<Cube>)
    requires AllOver(cubes, Below(n)) && n <= WIDTH
    ensures RowsFrom(Input(Rows(cubes, n) + ".e\n", true), kind, n, 1, [sofar]) ==
      Finished(TwoLvl(kind, n, [sofar + cubes]))
  {
    hide Rows, RowsFrom, AllOver;
    RowsThen(cubes, n, ".e\n", kind, sofar);
    EndRead(n, kind, sofar + cubes);
  }

  lemma EndMarker()
    ensures AfterLine(Input(".e\n", true), ' ') == (".e\n", Input("", false))
  {
    hide Until;
    assert ' ' !in ".e\n";
    assert Until(".e\n", ' ') == ".e\n";
  }

  lemma EndRead(n: nat, kind: Kind, sofar: seq<Cube>)
    ensures RowsFrom(Input(".e\n", true), kind, n, 1, [sofar]) == Finished(TwoLvl(kind, n, [sofar]))
  {
    hide AfterLine;
    EndMarker();
  }

  lemma NothingLeft(rest: string, n: nat, kind: Kind, sofar: seq<Cube>)
    ensures RowsFrom(Input(rest, false), kind, n, 1, [sofar]) == Finished(TwoLvl(kind, n, [sofar]))
  {
  }

  /** The rows do not look like a header line. */
  lemma HeaderStops(cubes: seq<Cube>, n: nat, tail: string, h: Header)
    requires cubes != []
    ensures HeaderFrom(Input(Rows(cubes, n) + tail, true), h) == (h, Input(Rows(cubes, n) + tail, true))
  {
    hide Str, Directive;
    StrChars(cubes[0], n);
    var text := Rows(cubes, n) + tail;
    assert text[0] == (Str(cubes[0], n) + " 1\n")[0];
    if n > 0 { assert text[0] == Str(cubes[0], n)[0]; }
  }

  /** With no rows the end marker is taken for a header line, which uses the text up. */
  lemma HeaderEatsEnd(h: Header)
    ensures HeaderFrom(Input(".e\n", true), h) == (h, Input("", false))
  {
    hide AfterLine, AfterNumber;
    EndMarker();
    FailedLine();
    assert Directive(Input(".e\n", true), h) == (h, Input("", false));
    assert HeaderFrom(Input("", false), h) == (h, Input("", false));
  }

  lemma FailedLine()
    ensures AfterLine(Input("", false), '\n') == ("", Input("", false))
  {
  }

  lemma NoKind()
    ensures KindOf("") == UNDEF
  {
  }

  lemma ReadFrom(text: string, h: Header, st: Input)
    requires HeaderFrom(Input(text, true), Header(0, 0, 0, "")) == (h, st)
    ensures ReadText(text) == RowsFrom(st, KindOf(h.kindText), h.nInputs, h.nOutputs, seq(h.nOutputs, _ => []))
  {
    hide HeaderFrom, RowsFrom, KindOf;
  }

  /** What the reader makes of the writer's text: the same cubes, unless there are more of them than the count in
      the header can express. */
  lemma ReadBack(cubes: seq<Cube>, n: nat)
    requires AllOver(cubes, Below(n)) && n <= WIDTH
    ensures ReadText(PlaText(cubes, n)) ==
      Finished(TwoLvl(UNDEF, n, [if |cubes| < WORD then cubes else []]))
  {
    hide Digits, HeaderFrom, Rows, RowsFrom, AllOver, KindOf, ReadText;
    var body := Rows(cubes, n) + ".e\n";
    var text := PlaText(cubes, n);
    HeaderRead(n, |cubes|, body);
    assert text == ".i " + Digits(n) + "\n" + ".o 1\n" + ".p " + Digits(|cubes|) + "\n" + body;
    NoKind();
    var none: seq<seq<Cube>> := seq(1, _ => []);
    assert none == [[]];
    if |cubes| >= WORD {
      var h := Header(n, 1, WORD - 1, "");
      FailedHeader("\n" + body, h);
      ReadFrom(text, h, Input("\n" + body, false));
      NothingLeft("\n" + body, n, UNDEF, []);
    } else if cubes == [] {
      var h := Header(n, 1, |cubes|, "");
      NoRows(n);
      HeaderEatsEnd(h);
      ReadFrom(text, h, Input("", false));
      NothingLeft("", n, UNDEF, []);
    } else {
      var h := Header(n, 1, |cubes|, "");
      HeaderStops(cubes, n, ".e\n", h);
      ReadFrom(text, h, Input(body, true));
      RowsRead(cubes, n, UNDEF, []);
      assert [] + cubes == cubes;
    }
  }

  lemma NoRows(n: nat)
    ensures Rows([], n) + ".e\n" == ".e\n"
  {
  }

  lemma FailedHeader(rest: string, h: Header)
    ensures HeaderFrom(Input(rest, false), h) == (h, Input(rest, false))
  {
  }

  /** The round trip is exact if and only if the number of cubes fits the 32-bit count of the header. */
  lemma RoundTripIff(cubes: seq<Cube>, n: nat)
    requires AllOver(cubes, Below(n)) && n <= WIDTH
    ensures ReadText(PlaText(cubes, n)) == Finished(TwoLvl(UNDEF, n, [cubes])) <==> |cubes| < WORD
  {
    hide ReadText, PlaText, AllOver;
    ReadBack(cubes, n);
    assert [cubes][0] == cubes;
  }

  // ---- The reader and the writer ----

  class StringStream {
    var rest: string
    var good: bool

    ghost function State(): Input
      reads this
    {
      Input(rest, good)
    }

    constructor (text: string)
      ensures State() == Input(text, true)
    {
      rest, good := text, true;
    }

    method Peek() returns (c: char)
      modifies this`good
      ensures (c, State()) == AfterPeek(old(State()))
    {
      if !good || rest == "" {
        good := false;
        return NUL;
      }
      return rest[0];
    }

    method GetLine(d: char) returns (line: string)
      modifies this
      ensures (line, State()) == AfterLine(old(State()), d)
    {
      line := "";
      if !good {
        return;
      }
      var text := rest;
      var i := 0;
      while i < |text| && text[i] != d
        invariant 0 <= i <= |text| && line == text[..i] && d !in line
        invariant unchanged(this)
      {
        line := line + [text[i]];
        i := i + 1;
      }
      if i < |text| {
        assert text == text[..i] + [d] + text[i + 1..];
        UntilAt(text[..i], d, text[i + 1..]);
        rest := text[i + 1..];
      } else {
        assert text[..i] == text;
        WholeLine(text, d);
        rest, good := "", false;
      }
    }

    method ReadNumber(before: nat) returns (n: nat)
      modifies this
      ensures (n, State()) == AfterNumber(old(State()), before)
    {
      hide Decimal, DigitPrefix, SkipSpace;
      n := before;
      if !good {
        return;
      }
      var i := 0;
      while i < |rest| && IsSpace(rest[i])
        invariant 0 <= i <= |rest| && unchanged(this)
        invariant SkipSpace(rest) == SkipSpace(rest[i..])
      {
        SkipStep(rest[i..]);
        assert rest[i..][1..] == rest[i + 1..];
        i := i + 1;
      }
      SkipStep(rest[i..]);
      if i == |rest| {
        rest, good := "", false;
        return;
      }
      var negative := rest[i] == '-';
      var s := if IsSign(rest[i]) then rest[i + 1..] else rest[i..];
      var j, value := ScanDigits(s);
      rest := s[j..];
      if j == 0 {
        n, good := 0, false;
      } else if value >= WORD {
        n, good := WORD - 1, false;
      } else {
        n, good := if negative then (WORD - value) % WORD else value, rest != "";
      }
    }
  }

  /** The leading digits of a text and their value. */
  method ScanDigits(s: string) returns (j: nat, value: nat)
    ensures j <= |s| && s[..j] == DigitPrefix(s) && value == Decimal(DigitPrefix(s))
  {
    hide Decimal, DigitPrefix;
    j, value := 0, 0;
    DecimalAppend([], '0');
    assert s[..0] == [];
    while j < |s| && IsDigit(s[j])
      invariant 0 <= j <= |s|
      invariant (forall q | 0 <= q < j :: IsDigit(s[q])) && value == Decimal(s[..j])
    {
      DecimalStep(s, j);
      value := 10 * value + DigitValue(s[j]);
      j := j + 1;
    }
    WholeNumber(s, j);
  }

  lemma WholeLine(text: string, d: char)
    requires d !in text
    ensures Until(text, d) == text
  {
  }

  lemma SkipStep(s: string)
    ensures SkipSpace(s) == if s != "" && IsSpace(s[0]) then SkipSpace(s[1..]) else s
  {
  }

  lemma DecimalStep(s: string, j: nat)
    requires j < |s| && forall q | 0 <= q <= j :: IsDigit(s[q])
    ensures Decimal(s[..j + 1]) == 10 * Decimal(s[..j]) + DigitValue(s[j])
  {
    assert s[..j + 1][..j] == s[..j];
  }

  lemma {:induction false} WholeNumber(s: string, j: nat)
    requires j <= |s| && (forall q | 0 <= q < j :: IsDigit(s[q])) && (j < |s| ==> !IsDigit(s[j]))
    ensures DigitPrefix(s) == s[..j]
  {
    if j > 0 {
      WholeNumber(s[1..], j - 1);
    }
  }

  method ReadHeader(buffer: StringStream) returns (h: Header)
    modifies buffer
    ensures (h, buffer.State()) == HeaderFrom(old(buffer.State()), Header(0, 0, 0, ""))
  {
    hide AfterLine, AfterNumber, AfterPeek, HeaderFrom, Directive;
    h := Header(0, 0, 0, "");
    while true
      invariant HeaderFrom(buffer.State(), h) == HeaderFrom(old(buffer.State()), Header(0, 0, 0, ""))
      decreases |buffer.rest|
    {
      ghost var st := buffer.State();
      HeaderCases(st, h);
      var c := buffer.Peek();
      if c != '.' && c != '#' {
        break;
      }
      DirectiveShrinks(st, h);
      h := ReadDirective(buffer, h);
    }
  }

  lemma HeaderCases(st: Input, h: Header)
    ensures StartsDirective(st) ==> AfterPeek(st).1 == st && st.good && st.rest != ""
    ensures StartsDirective(st) ==> HeaderFrom(st, h) == HeaderFrom(Directive(st, h).1, Directive(st, h).0)
    ensures !StartsDirective(st) ==> HeaderFrom(st, h) == (h, AfterPeek(st).1)
  {
    hide Directive;
  }

  method ReadDirective(buffer: StringStream, h: Header) returns (r: Header)
    modifies buffer
    ensures (r, buffer.State()) == Directive(old(buffer.State()), h)
  {
    hide AfterLine, AfterNumber, CharAt;
    var line := buffer.GetLine(' ');
    r := h;
    if CharAt(line, 0) == '#' {
      var _ := buffer.GetLine('\n');
      return;
    }
    if CharAt(line, 1) == 'i' {
      var n := buffer.ReadNumber(h.nInputs);
      r := r.(nInputs := n);
    }
    if CharAt(line, 1) == 'o' {
      var n := buffer.ReadNumber(h.nOutputs);
      r := r.(nOutputs := n);
    }
    if CharAt(line, 1) == 'p' {
      var n := buffer.ReadNumber(h.nTerms);
      r := r.(nTerms := n);
    }
    if CharAt(line, 1) == 't' {
      var good := buffer.good;
      var text := buffer.GetLine('\n');
      if good {
        r := r.(kindText := text);
      }
      return;
    }
    var _ := buffer.GetLine('\n');
  }

  /** `two_lvl32::add_cube`: the cube is built column by column and joins the lists of the outputs that want it. */
  method AddCube(cubes: seq<seq<Cube>>, input: string, output: string) returns (r: seq<seq<Cube>>)
    requires |output| == |cubes| && !WideLiteral(input)
    ensures r == AddTo(cubes, CubeOf(input), output)
  {
    hide AddLit;
    var cube := CUBE_ONE;
    for i := 0 to |input|
      invariant cube == CubeOf(input[..i])
    {
      assert input[..i + 1][..i] == input[..i];
      if input[i] == '1' {
        cube := AddLit(cube, i, true);
      } else if input[i] == '0' {
        cube := AddLit(cube, i, false);
      }
    }
    assert input[..|input|] == input;
    r := cubes;
    for i := 0 to |output|
      invariant |r| == |cubes|
      invariant forall k | 0 <= k < i :: r[k] == AddTo(cubes, cube, output)[k]
      invariant forall k | i <= k < |r| :: r[k] == cubes[k]
    {
      if output[i] == '1' {
        r := r[i := r[i] + [cube]];
      }
    }
  }

  /** The reader, over the text of a file. */
  method ReadPla(text: string) returns (outcome: Outcome)
    ensures outcome == ReadText(text)
  {
    hide AfterLine, HeaderFrom, KindOf, CharAt, RowsFrom, AddTo, CubeOf;
    var buffer := new StringStream(text);
    var h := ReadHeader(buffer);
    var kind := KindOf(h.kindText);
    var cubes: seq<seq<Cube>> := seq(h.nOutputs, _ => []);
    while true
      invariant |cubes| == h.nOutputs
      invariant RowsFrom(buffer.State(), kind, h.nInputs, h.nOutputs, cubes) == ReadText(text)
      decreases |buffer.rest|, buffer.good
    {
      ghost var st := buffer.State();
      RowCases(st, kind, h.nInputs, h.nOutputs, cubes);
      var more := buffer.good;
      var input := buffer.GetLine(' ');
      if CharAt(input, 0) == '.' && CharAt(input, 1) == 'e' {
        return Finished(TwoLvl(kind, h.nInputs, cubes));
      }
      if |input| != h.nInputs {
        return Finished(TwoLvl(kind, h.nInputs, cubes));
      }
      var output := buffer.GetLine('\n');
      if |output| != h.nOutputs {
        return Finished(TwoLvl(kind, h.nInputs, cubes));
      }
      if WideLiteral(input) {
        return TooWide;
      }
      if !more {
        return Endless;
      }
      cubes := AddCube(cubes, input, output);
    }
  }

  lemma RowCases(st: Input, kind: Kind, nIn: nat, nOut: nat, cubes: seq<seq<Cube>>)
    requires |cubes| == nOut
    ensures var (input, st1) := AfterLine(st, ' '); var (output, st2) := AfterLine(st1, '\n');
      RowsFrom(st, kind, nIn, nOut, cubes) ==
        if (CharAt(input, 0) == '.' && CharAt(input, 1) == 'e') || |input| != nIn || |output| != nOut then
          Finished(TwoLvl(kind, nIn, cubes))
        else if WideLiteral(input) then TooWide
        else if !st.good then Endless
        else RowsFrom(st2, kind, nIn, nOut, AddTo(cubes, CubeOf(input), output))
    ensures var st2 := AfterLine(AfterLine(st, ' ').1, '\n').1;
      st.good ==> |st2.rest| < |st.rest| || (|st2.rest| == |st.rest| && !st2.good)
  {
    hide AddTo, CubeOf, CharAt, Until;
    LineShrinks(AfterLine(st, ' ').1, '\n');
    LineShrinks(st, ' ');
  }

  /** `cube32::str`, character by character. */
  method CubeText(c: Cube, nInputs: nat) returns (s: string)
    ensures s == Str(c, nInputs)
  {
    hide Has;
    s := "";
    for i := 0 to nInputs
      invariant |s| == i && forall k | 0 <= k < i :: s[k] == LitChar(Lit(c, k))
    {
      if !Has(c.mask, i) {
        s := s + ['-'];
      } else if Has(c.polarity, i) {
        s := s + ['1'];
      } else {
        s := s + ['0'];
      }
    }
  }

  /** The text of one output file. */
  method WritePla(esop: seq<Cube>, nInputs: nat) returns (text: string)
    ensures text == PlaText(esop, nInputs)
  {
    hide Digits, Str;
    text := ".i " + Digits(nInputs) + "\n";
    text := text + ".o 1\n";
    text := text + ".p " + Digits(|esop|) + "\n";
    ghost var header := text;
    for i := 0 to |esop|
      invariant text + Rows(esop[i..], nInputs) == header + Rows(esop, nInputs)
    {
      var row := CubeText(esop[i], nInputs);
      assert esop[i..][0] == esop[i] && esop[i..][1..] == esop[i + 1..];
      text := text + row + " 1\n";
    }
    assert esop[|esop|..] == [];
    text := text + ".e\n";
  }

  /** One text per output. */
  method WriteAll(f: TwoLvl) returns (texts: seq<string>)
    requires WellFormed(f)
    ensures |texts| == |f.cubes| && forall k | 0 <= k < |texts| :: texts[k] == PlaText(f.cubes[k], f.nInputs)
    ensures forall k | 0 <= k < |texts| && |f.cubes[k]| < WORD ::
      ReadText(texts[k]) == Finished(TwoLvl(UNDEF, f.nInputs, [f.cubes[k]]))
  {
    hide PlaText, ReadText, AllOver;
    texts := [];
    for i := 0 to |f.cubes|
      invariant |texts| == i && forall k | 0 <= k < i :: texts[k] == PlaText(f.cubes[k], f.nInputs)
    {
      var text := WritePla(f.cubes[i], f.nInputs);
      texts := texts + [text];
    }
    forall k | 0 <= k < |texts| && |f.cubes[k]| < WORD
      ensures ReadText(texts[k]) == Finished(TwoLvl(UNDEF, f.nInputs, [f.cubes[k]]))
    {
      RoundTripIff(f.cubes[k], f.nInputs);
    }
  }
}
