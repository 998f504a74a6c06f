/** What is read of a PLA file with any number of outputs, of its type line and of its counts. */
module PlaFiles {
  import opened Bits
  import opened Cube32
  import opened TwoLvl32
  import opened Pla
  import opened PlaReading

  // ---- Rows of any number of outputs ----

  /** The literals of a row's cube are those of its columns. */
  lemma {:induction false} RowLiterals(s: string)
    requires !WideLiteral(s)
    ensures Canonical(CubeOf(s))
    ensures forall v: nat | v < WIDTH ::
      Lit(CubeOf(s), v) == if v >= |s| then Absent else if s[v] == '1' then Positive else if s[v] == '0' then Negative else Absent
  {
    hide Has, AddLit, Lit, Canonical, WideLiteral;
    if s == "" {
      EmptyRow();
    } else {
      var k := |s| - 1;
      NarrowPrefix(s);
      RowLiterals(s[..k]);
      if s[k] == '0' || s[k] == '1' { AddLitLiterals(CubeOf(s[..k]), k, s[k] == '1'); }
    }
  }

  datatype TextRow = TextRow(input: string, output: string)

  /** A row that the reader takes for one. */
  predicate ReadableRow(row: TextRow, nIn: nat, nOut: nat) {
    && |row.input| == nIn && |row.output| == nOut
    && ' ' !in row.input && '\n' !in row.output && !WideLiteral(row.input)
    && !(CharAt(row.input, 0) == '.' && CharAt(row.input, 1) == 'e')
  }

  predicate ReadableRows(rows: seq<TextRow>, nIn: nat, nOut: nat) {
    forall i | 0 <= i < |rows| :: ReadableRow(rows[i], nIn, nOut)
  }

  function RowsText(rows: seq<TextRow>): string {
    if rows == [] then "" else rows[0].input + " " + rows[0].output + "\n" + RowsText(rows[1..])
  }

  /** The cubes of the rows that mark output `k`, in their order. */
  function Marked(rows: seq<TextRow>, k: nat): seq<Cube>
    requires forall i | 0 <= i < |rows| :: k < |rows[i].output|
  {
    if rows == [] then []
    else (if rows[0].output[k] == '1' then [CubeOf(rows[0].input)] else []) + Marked(rows[1..], k)
  }

  function WithMarked(cubes: seq<seq<Cube>>, rows: seq<TextRow>): (r: seq<seq<Cube>>)
    requires forall i | 0 <= i < |rows| :: |rows[i].output| == |cubes|
    ensures |r| == |cubes|
  {
    seq(|cubes|, k requires 0 <= k < |cubes| => cubes[k] + Marked(rows, k))
  }

  /** Each output gets the cubes of exactly the rows that mark it, in order, whatever comes after the rows. */
  lemma {:induction false} MarkedRows(rows: seq<TextRow>, tail: string, kind: Kind, nIn: nat, nOut: nat,
      cubes: seq<seq<Cube>>)
    requires ReadableRows(rows, nIn, nOut) && |cubes| == nOut
    ensures RowsFrom(Input(RowsText(rows) + tail, true), kind, nIn, nOut, cubes) ==
      RowsFrom(Input(tail, true), kind, nIn, nOut, WithMarked(cubes, rows))
    decreases |rows|
  {
    hide RowsFrom, AddTo, CubeOf, AfterLine, WideLiteral, CharAt;
    if rows == [] {
      assert RowsText(rows) + tail == tail;
      NothingMarked(cubes);
    } else {
      var row := rows[0];
      var rest := RowsText(rows[1..]) + tail;
      assert RowsText(rows) + tail == row.input + [' '] + (row.output + ['\n'] + rest);
      LineAt(row.input, ' ', row.output + ['\n'] + rest);
      LineAt(row.output, '\n', rest);
      RowCases(Input(RowsText(rows) + tail, true), kind, nIn, nOut, cubes);
      var more := AddTo(cubes, CubeOf(row.input), row.output);
      MarkedRows(rows[1..], tail, kind, nIn, nOut, more);
      MarkedStep(cubes, rows);
    }
  }

  lemma NothingMarked(cubes: seq<seq<Cube>>)
    ensures WithMarked(cubes, []) == cubes
    ensures forall k: nat :: Marked([], k) == []
  {
    forall k | 0 <= k < |cubes| ensures WithMarked(cubes, [])[k] == cubes[k] {
      assert Marked([], k) == [];
    }
  }

  lemma MarkedStep(cubes: seq<seq<Cube>>, rows: seq<TextRow>)
    requires rows != [] && forall i | 0 <= i < |rows| :: |rows[i].output| == |cubes|
    ensures WithMarked(AddTo(cubes, CubeOf(rows[0].input), rows[0].output), rows[1..]) == WithMarked(cubes, rows)
  {
    hide CubeOf;
    var more := AddTo(cubes, CubeOf(rows[0].input), rows[0].output);
    forall k | 0 <= k < |cubes| ensures WithMarked(more, rows[1..])[k] == WithMarked(cubes, rows)[k] {
      assert more[k] == cubes[k] + if rows[0].output[k] == '1' then [CubeOf(rows[0].input)] else [];
    }
  }

  /** A file with any number of outputs and a type line. */
  function FileText(n: nat, outputs: nat, count: nat, kindText: string, rows: seq<TextRow>): string {
    ".i " + Digits(n) + "\n" + ".o " + Digits(outputs) + "\n" + ".p " + Digits(count) + "\n" +
    (".type " + kindText + "\n" + (RowsText(rows) + ".e\n"))
  }

  /** Read as written: the declared kind, and for each output the cubes of the rows that mark it. */
  lemma FileRead(n: nat, outputs: nat, count: nat, kindText: string, rows: seq<TextRow>)
    requires n < WORD && outputs < WORD && count < WORD && '\n' !in kindText
    requires ReadableRows(rows, n, outputs) && (n > 0 || outputs > 0)
    requires !StartsDirective(Input(RowsText(rows), true))
    ensures var r := ReadText(FileText(n, outputs, count, kindText, rows));
      && r.Finished? && r.f.kind == KindOf(kindText) && r.f.nInputs == n && |r.f.cubes| == outputs
      && forall k | 0 <= k < outputs :: r.f.cubes[k] == Marked(rows, k)
  {
    hide Digits, RowsText, HeaderFrom, RowsFrom, KindOf, ReadText, StartsDirective, Marked, WideLiteral, CharAt;
    var body := RowsText(rows) + ".e\n";
    var text := FileText(n, outputs, count, kindText, rows);
    var h := Header(n, outputs, count, kindText);
    FileHeader(n, outputs, count, kindText, body);
    var none: seq<seq<Cube>> := seq(outputs, _ => []);
    if rows == [] {
      NoTextRows();
      HeaderEatsEnd(h);
      ReadFrom(text, h, Input("", false));
      FailedRest(KindOf(kindText), n, outputs, none);
      NothingMarked(none);
    } else {
      RowsStart(rows, ".e\n", n, outputs, h);
      ReadFrom(text, h, Input(body, true));
      MarkedRows(rows, ".e\n", KindOf(kindText), n, outputs, none);
      AtEnd(KindOf(kindText), n, outputs, WithMarked(none, rows));
    }
  }

  lemma NoTextRows()
    ensures RowsText([]) + ".e\n" == ".e\n"
  {
  }

  lemma RowsStart(rows: seq<TextRow>, tail: string, nIn: nat, nOut: nat, h: Header)
    requires rows != [] && !StartsDirective(Input(RowsText(rows), true))
    ensures HeaderFrom(Input(RowsText(rows) + tail, true), h) == (h, Input(RowsText(rows) + tail, true))
  {
    hide Directive;
    var text := RowsText(rows);
    assert text != "" && (text + tail)[0] == text[0];
  }

  lemma FailedRest(kind: Kind, nIn: nat, nOut: nat, cubes: seq<seq<Cube>>)
    requires |cubes| == nOut && (nIn > 0 || nOut > 0)
    ensures RowsFrom(Input("", false), kind, nIn, nOut, cubes) == Finished(TwoLvl(kind, nIn, cubes))
  {
    hide AddTo, CubeOf;
    RowCases(Input("", false), kind, nIn, nOut, cubes);
  }

  lemma AtEnd(kind: Kind, nIn: nat, nOut: nat, cubes: seq<seq<Cube>>)
    requires |cubes| == nOut
    ensures RowsFrom(Input(".e\n", true), kind, nIn, nOut, cubes) == Finished(TwoLvl(kind, nIn, cubes))
  {
    hide AfterLine, AddTo, CubeOf;
    EndMarker();
    RowCases(Input(".e\n", true), kind, nIn, nOut, cubes);
  }

  lemma FileHeader(n: nat, outputs: nat, count: nat, kindText: string, body: string)
    requires n < WORD && outputs < WORD && count < WORD && '\n' !in kindText
    ensures var text := ".i " + Digits(n) + "\n" + ".o " + Digits(outputs) + "\n" + ".p " + Digits(count) + "\n" +
        (".type " + kindText + "\n" + body);
      HeaderFrom(Input(text, true), NO_HEADER) == HeaderFrom(Input(body, true), Header(n, outputs, count, kindText))
  {
    hide Digits, Directive, AfterLine, HeaderFrom;
    var l4 := ".type " + kindText + "\n" + body;
    var l3 := ['.', 'p', ' '] + Digits(count) + "\n" + l4;
    var l2 := ['.', 'o', ' '] + Digits(outputs) + "\n" + l3;
    var l1 := ['.', 'i', ' '] + Digits(n) + "\n" + l2;
    assert l1 == ".i " + Digits(n) + "\n" + ".o " + Digits(outputs) + "\n" + ".p " + Digits(count) + "\n" + l4;
    NumberLine('i', n, l2, NO_HEADER);
    NumberLine('o', outputs, l3, Header(n, 0, 0, ""));
    NumberLine('p', count, l4, Header(n, outputs, 0, ""));
    TypeLine(kindText, body, Header(n, outputs, count, ""));
    assert l1[0] == '.' && l2[0] == '.' && l3[0] == '.' && l4[0] == '.';
    HeaderStep(Input(l1, true), NO_HEADER);
    HeaderStep(Input(l2, true), Header(n, 0, 0, ""));
    HeaderStep(Input(l3, true), Header(n, outputs, 0, ""));
    HeaderStep(Input(l4, true), Header(n, outputs, count, ""));
  }

  lemma TypeLine(kindText: string, rest: string, h: Header)
    requires '\n' !in kindText
    ensures Directive(Input(".type " + kindText + "\n" + rest, true), h) == (h.(kindText := kindText), Input(rest, true))
  {
    hide AfterNumber, AfterLine;
    assert ".type " + kindText + "\n" + rest == ".type" + [' '] + (kindText + ['\n'] + rest);
    LineAt(".type", ' ', kindText + ['\n'] + rest);
    LineAt(kindText, '\n', rest);
  }

  // ---- Where the rows end ----

  /** A line that starts with ".e" ends the reading whatever its width and whatever follows, and so does a line whose
      input or output part has another width than declared. */
  lemma RowsEnd(input: string, output: string, rest: string, kind: Kind, nIn: nat, nOut: nat, cubes: seq<seq<Cube>>)
    requires ' ' !in input && '\n' !in output && |cubes| == nOut
    requires (|input| >= 2 && input[..2] == ".e") || |input| != nIn || |output| != nOut
    ensures RowsFrom(Input(input + " " + output + "\n" + rest, true), kind, nIn, nOut, cubes) ==
      Finished(TwoLvl(kind, nIn, cubes))
  {
    hide RowsFrom, AfterLine, AddTo, CubeOf, WideLiteral;
    var text := input + " " + output + "\n" + rest;
    assert text == input + [' '] + (output + ['\n'] + rest);
    LineAt(input, ' ', output + ['\n'] + rest);
    LineAt(output, '\n', rest);
    RowCases(Input(text, true), kind, nIn, nOut, cubes);
    if |input| >= 2 && input[..2] == ".e" {
      assert input[0] == input[..2][0] && input[1] == input[..2][1];
    }
  }

  // ---- The kind ----

  /** `t` stands in `s` at place `i`. */
  predicate OccursAt(s: string, t: string, i: nat) {
    i + |t| <= |s| && s[i..i + |t|] == t
  }

  ghost predicate Occurs(s: string, t: string) {
    exists i: nat :: OccursAt(s, t, i)
  }

  lemma OccursNext(s: string, t: string, i: nat)
    requires s != ""
    ensures OccursAt(s, t, i + 1) <==> OccursAt(s[1..], t, i)
    ensures OccursAt(s, t, 0) <==> t <= s
  {
    if i + 1 + |t| <= |s| { assert s[1..][i..i + |t|] == s[i + 1..i + 1 + |t|]; }
  }

  lemma {:induction false} ContainsIff(s: string, t: string)
    ensures Contains(s, t) <==> Occurs(s, t)
  {
    hide OccursAt;
    if s == "" {
      NothingOccurs(t);
    } else {
      ContainsIff(s[1..], t);
      forall i: nat { OccursNext(s, t, i); }
      OccursNext(s, t, 0);
      if Occurs(s, t) && !(t <= s) {
        var i: nat :| OccursAt(s, t, i);
        assert i > 0;
        assert OccursAt(s[1..], t, i - 1);
      }
      if Occurs(s[1..], t) {
        var i: nat :| OccursAt(s[1..], t, i);
        assert OccursAt(s, t, i + 1);
      }
      if t <= s { assert OccursAt(s, t, 0); }
    }
  }

  lemma NothingOccurs(t: string)
    ensures t <= "" <==> exists i: nat :: OccursAt("", t, i)
  {
    if t <= "" { assert OccursAt("", t, 0); }
  }

  /** Letter case aside, a type text with "esop" in it declares an ESOP, any other with "sop" in it an SOP. */
  lemma KindIff(kindText: string, lower: string)
    requires |lower| == |kindText| && forall i | 0 <= i < |lower| :: lower[i] == Lower(kindText[i])
    ensures KindOf(kindText) == ESOP <==> Occurs(lower, "esop")
    ensures KindOf(kindText) == SOP <==> Occurs(lower, "sop") && !Occurs(lower, "esop")
  {
    hide Contains, Occurs, OccursAt, Lower;
    assert lower == seq(|kindText|, i requires 0 <= i < |kindText| => Lower(kindText[i]));
    ContainsIff(lower, "esop");
    ContainsIff(lower, "sop");
  }

  // ---- Numbers with a sign ----

  lemma SignAt(sign: char, n: nat, rest: string, before: nat)
    requires n < WORD && IsSign(sign)
    ensures AfterNumber(Input([sign] + (Digits(n) + "\n" + rest), true), before) ==
      (if sign == '-' then (WORD - n) % WORD else n, Input("\n" + rest, true))
  {
    hide DigitPrefix, Decimal, Digits;
    var body := Digits(n) + "\n" + rest;
    var text := [sign] + body;
    DigitPrefixAt(Digits(n), '\n', rest);
    DecimalDigits(n);
    assert text[0] == sign && text[1..] == body && body[|Digits(n)|..] == "\n" + rest;
    assert SkipSpace(text) == text;
  }

  /** A plus sign changes nothing, and a minus sign negates modulo 2^32. */
  lemma SignedNumber(n: nat, rest: string, before: nat)
    requires n < WORD
    ensures AfterNumber(Input(['+'] + (Digits(n) + "\n" + rest), true), before) == (n, Input("\n" + rest, true))
    ensures var (m, st) := AfterNumber(Input(['-'] + (Digits(n) + "\n" + rest), true), before);
      m < WORD && (m + n) % WORD == 0 && st == Input("\n" + rest, true)
  {
    hide AfterNumber, Digits;
    SignAt('+', n, rest, before);
    SignAt('-', n, rest, before);
  }

  // ---- The header that is written ----

  /** The written header declares the inputs, one output and, while it fits, the number of cubes. */
  lemma WrittenHeader(cubes: seq<Cube>, n: nat)
    requires n <= WIDTH && |cubes| < WORD
    ensures HeaderFrom(Input(PlaText(cubes, n), true), NO_HEADER).0 == Header(n, 1, |cubes|, "")
  {
    hide Digits, HeaderFrom, Rows;
    var body := Rows(cubes, n) + ".e\n";
    HeaderRead(n, |cubes|, body);
    assert PlaText(cubes, n) == ".i " + Digits(n) + "\n" + ".o 1\n" + ".p " + Digits(|cubes|) + "\n" + body;
    var h := Header(n, 1, |cubes|, "");
    if cubes == [] {
      NoRows(n);
      HeaderEatsEnd(h);
    } else {
      HeaderStops(cubes, n, ".e\n", h);
    }
  }
}
