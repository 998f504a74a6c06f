/** How the PLA reader treats comment lines, and which texts it never finishes. */
module PlaReading {
  import opened Bits
  import opened Cube32
  import opened Esop
  import opened TwoLvl32
  import opened Pla

  // ---- What a reading delivers ----

  lemma NarrowPrefix(s: string)
    requires s != "" && !WideLiteral(s)
    ensures !WideLiteral(s[..|s| - 1])
    ensures s[|s| - 1] == '0' || s[|s| - 1] == '1' ==> |s| <= WIDTH
  {
  }

  lemma RowStep(c: Cube, k: nat, symbol: char)
    requires Over(c, Below(k)) && (symbol == '0' || symbol == '1' ==> k < WIDTH)
    ensures Over(if symbol == '1' then AddLit(c, k, true) else if symbol == '0' then AddLit(c, k, false) else c, Below(k + 1))
  {
    hide Has, AddLit, Canonical, Eval;
    if symbol == '0' || symbol == '1' { AddLitRestricts(c, k, symbol == '1', Below(k)); }
  }

  /** The cube of a row is canonical over the columns of the row. */
  lemma {:induction false} RowOver(s: string)
    requires !WideLiteral(s)
    ensures Over(CubeOf(s), Below(|s|))
  {
    hide Over, AddLit, WideLiteral, Below;
    if s == "" {
      NoColumns();
    } else {
      NarrowPrefix(s);
      RowOver(s[..|s| - 1]);
      RowStep(CubeOf(s[..|s| - 1]), |s| - 1, s[|s| - 1]);
    }
  }

  lemma NoColumns()
    ensures Over(CUBE_ONE, Below(0))
  {
    hide Has, Eval;
    OneHolds({});
  }

  lemma AddToOver(cubes: seq<seq<Cube>>, c: Cube, output: string, vs: set<nat>)
    requires |output| == |cubes| && Over(c, vs) && forall k | 0 <= k < |cubes| :: AllOver(cubes[k], vs)
    ensures forall k | 0 <= k < |cubes| :: AllOver(AddTo(cubes, c, output)[k], vs)
  {
    hide Over;
  }

  lemma {:induction false} RowsWithin(st: Input, kind: Kind, nIn: nat, nOut: nat, cubes: seq<seq<Cube>>)
    requires |cubes| == nOut && forall k | 0 <= k < nOut :: AllOver(cubes[k], Below(nIn))
    ensures var r := RowsFrom(st, kind, nIn, nOut, cubes);
      r.Finished? ==> CubesWithin(r.f) && r.f.kind == kind && r.f.nInputs == nIn && |r.f.cubes| == nOut
    decreases |st.rest|, st.good
  {
    hide AllOver, AddTo, CubeOf, CharAt, Until, WideLiteral;
    var (input, st1) := AfterLine(st, ' ');
    var (output, st2) := AfterLine(st1, '\n');
    if st.good && |input| == nIn && |output| == nOut && !WideLiteral(input) {
      RowOver(input);
      AddToOver(cubes, CubeOf(input), output, Below(nIn));
      RowCases(st, kind, nIn, nOut, cubes);
      RowsWithin(st2, kind, nIn, nOut, AddTo(cubes, CubeOf(input), output));
    }
  }

  /** Whatever the text, a finished reading has one list per declared output, of canonical cubes over the declared
      inputs. */
  lemma FinishedWithin(text: string)
    requires ReadText(text).Finished?
    ensures CubesWithin(ReadText(text).f)
    ensures var h := HeaderFrom(Input(text, true), Header(0, 0, 0, "")).0;
      && ReadText(text).f.kind == KindOf(h.kindText) && ReadText(text).f.nInputs == h.nInputs
      && |ReadText(text).f.cubes| == h.nOutputs
  {
    hide HeaderFrom, RowsFrom, KindOf, CubesWithin;
    var (h, st) := HeaderFrom(Input(text, true), Header(0, 0, 0, ""));
    RowsWithin(st, KindOf(h.kindText), h.nInputs, h.nOutputs, seq(h.nOutputs, _ => []));
  }

  // ---- Texts the reader does not finish ----

  /** Only a header without inputs and outputs can make the reader run on for ever. */
  lemma {:induction false} EndlessWithoutColumns(st: Input, kind: Kind, nIn: nat, nOut: nat, cubes: seq<seq<Cube>>)
    requires |cubes| == nOut && RowsFrom(st, kind, nIn, nOut, cubes) == Endless
    ensures nIn == 0 && nOut == 0
    decreases |st.rest|, st.good
  {
    hide AddTo, CubeOf, CharAt, Until;
    var (input, st1) := AfterLine(st, ' ');
    var (output, st2) := AfterLine(st1, '\n');
    if st.good {
      LineShrinks(st, ' ');
      LineShrinks(st1, '\n');
      EndlessWithoutColumns(st2, kind, nIn, nOut, AddTo(cubes, CubeOf(input), output));
    }
  }

  /** Lines of a single space, the last one possibly cut short. */
  predicate BlankRows(s: string) {
    s == "" || s == " " || (|s| >= 2 && s[0] == ' ' && s[1] == '\n' && BlankRows(s[2..]))
  }

  /** How the reader splits a text that starts with a blank row, a cut blank row, or anything else. */
  lemma BlankHead(s: string)
    ensures var (input, st1) := AfterLine(Input(s, true), ' '); var (output, st2) := AfterLine(st1, '\n');
      && (s == "" || s == " " ==> input == "" && output == "" && !st2.good)
      && (|s| >= 2 && s[0] == ' ' && s[1] == '\n' ==> input == "" && output == "" && st2 == Input(s[2..], true))
      && (s != "" && s != " " && !(|s| >= 2 && s[0] == ' ' && s[1] == '\n') ==> input != "" || output != "")
  {
    if |s| >= 2 && s[0] == ' ' {
      var s1 := s[1..];
      assert AfterLine(Input(s, true), ' ') == ("", Input(s1, true));
      assert s1 != "" && s1[0] == s[1];
      if s[1] == '\n' { assert s1[1..] == s[2..]; }
    }
  }

  /** Without columns, the reader runs on exactly when only blank rows are left. */
  lemma {:induction false} EndlessIff(s: string, kind: Kind)
    ensures RowsFrom(Input(s, true), kind, 0, 0, []) == Endless <==> BlankRows(s)
    decreases |s|
  {
    hide AfterLine, RowsFrom, CubeOf;
    BlankHead(s);
    RowCases(Input(s, true), kind, 0, 0, []);
    var st2 := AfterLine(AfterLine(Input(s, true), ' ').1, '\n').1;
    assert AddTo([], CubeOf(""), "") == [];
    if s == "" || s == " " {
      FailedEndless(st2, kind);
    } else if |s| >= 2 && s[0] == ' ' && s[1] == '\n' {
      EndlessIff(s[2..], kind);
    }
  }

  lemma FailedEndless(st: Input, kind: Kind)
    requires !st.good
    ensures RowsFrom(st, kind, 0, 0, []) == Endless
  {
  }

  /** The whole reader runs on exactly when the header declares neither inputs nor outputs and then either the
      stream has failed or only blank rows are left. */
  lemma EndlessTextIff(text: string)
    ensures var (h, st) := HeaderFrom(Input(text, true), Header(0, 0, 0, ""));
      ReadText(text) == Endless <==> h.nInputs == 0 && h.nOutputs == 0 && (!st.good || BlankRows(st.rest))
  {
    hide HeaderFrom, RowsFrom, KindOf;
    var (h, st) := HeaderFrom(Input(text, true), Header(0, 0, 0, ""));
    var kind, none := KindOf(h.kindText), seq<seq<Cube>>(h.nOutputs, _ => []);
    if ReadText(text) == Endless {
      EndlessWithoutColumns(st, kind, h.nInputs, h.nOutputs, none);
    }
    if h.nInputs == 0 && h.nOutputs == 0 {
      assert none == [];
      if st.good { EndlessIff(st.rest, kind); } else { FailedEndless(st, kind); }
    }
  }

  /** A count that is no number fails the stream with both counts 0: whatever follows, the reader runs on. */
  lemma MalformedCountEndless(rest: string)
    ensures ReadText(".i x\n" + rest) == Endless
  {
    hide RowsFrom, KindOf;
    var text := ".i x\n" + rest;
    assert text == ".i" + [' '] + ("x\n" + rest);
    LineAt(".i", ' ', "x\n" + rest);
    assert SkipSpace("x\n" + rest) == "x\n" + rest;
    assert DigitPrefix("x\n" + rest) == "";
    assert AfterNumber(Input("x\n" + rest, true), 0) == (0, Input("x\n" + rest, false));
    var h := Header(0, 0, 0, "");
    HeaderStep(Input(text, true), h);
    assert Directive(Input(text, true), h) == (h, Input("x\n" + rest, false));
    EndlessTextIff(text);
  }

  // ---- Comments in the header ----

  /** What is left once a comment line has been read: the text up to the first space and then up to the end of that
      line is gone. */
  function AfterComment(st: Input): Input {
    AfterLine(AfterLine(st, ' ').1, '\n').1
  }

  lemma {:induction false} UntilStops(s: string, d: char)
    requires d in s
    ensures |Until(s, d)| < |s|
  {
    if s[0] != d { UntilStops(s[1..], d); }
  }

  lemma {:induction false} UntilPasses(s: string, t: string, d: char)
    requires d !in s
    ensures s <= Until(s + t, d)
    ensures |Until(s + t, d)| == |s| + |Until(t, d)|
  {
    if s == [] {
      assert s + t == t;
    } else {
      assert (s + t)[1..] == s[1..] + t;
      UntilPasses(s[1..], t, d);
    }
  }

  /** A comment with a space is gone; one without takes the line it runs into along. */
  lemma CommentRead(t: string, rest: string)
    requires '\n' !in t
    ensures AfterComment(Input("#" + t + "\n" + rest, true)) ==
      if ' ' in t then Input(rest, true) else AfterComment(Input(rest, true))
  {
    hide Until, AfterLine;
    var text := "#" + t + "\n" + rest;
    if ' ' in t {
      var p := Until(t, ' ');
      UntilStops(t, ' ');
      var q := t[|p| + 1..];
      assert t == p + [' '] + q;
      assert text == ("#" + p) + [' '] + (q + ['\n'] + rest);
      LineAt("#" + p, ' ', q + ['\n'] + rest);
      LineAt(q, '\n', rest);
    } else {
      LineAfter("#" + t + "\n", rest, ' ');
    }
  }

  /** Text without the delimiter before the rest of a line does not matter for what follows the line. */
  lemma LineAfter(s: string, rest: string, d: char)
    requires d !in s
    ensures AfterLine(Input(s + rest, true), d).1 == AfterLine(Input(rest, true), d).1
  {
    hide Until;
    UntilPasses(s, rest, d);
    var k := |Until(rest, d)|;
    if k < |rest| { assert (s + rest)[|s| + k + 1..] == rest[k + 1..]; }
  }

  lemma CommentHeader(t: string, rest: string, h: Header)
    requires '\n' !in t
    ensures HeaderFrom(Input("#" + t + "\n" + rest, true), h) ==
      HeaderFrom(if ' ' in t then Input(rest, true) else AfterComment(Input(rest, true)), h)
  {
    hide HeaderFrom, AfterComment;
    var st := Input("#" + t + "\n" + rest, true);
    HeaderStep(st, h);
    CommentRead(t, rest);
    CommentDirective(st, h);
  }

  lemma CommentDirective(st: Input, h: Header)
    requires st.good && st.rest != "" && st.rest[0] == '#'
    ensures Directive(st, h) == (h, AfterComment(st))
  {
  }

  // What a header line assigns, and whether a later one assigns it again.

  /** The field that the letter after the dot stands for. */
  function Field(h: Header, c: char): (nat, string) {
    if c == 'i' then (h.nInputs, "")
    else if c == 'o' then (h.nOutputs, "")
    else if c == 'p' then (h.nTerms, "")
    else if c == 't' then (0, h.kindText)
    else (0, "")
  }

  /** The letter after the dot. */
  function Letter(st: Input): char {
    CharAt(AfterLine(st, ' ').0, 1)
  }

  /** The line gives the field of `c` a value of its own. */
  predicate Assigns(st: Input, c: char) {
    var (line, st1) := AfterLine(st, ' ');
    CharAt(line, 0) != '#' && CharAt(line, 1) == c && st1.good && (c == 't' || SkipSpace(st1.rest) != "")
  }

  /** Some header line from here on assigns the field. */
  predicate SetLater(st: Input, c: char)
    decreases |st.rest|
  {
    StartsDirective(st) &&
    (Assigns(st, c) || (DirectiveShrinks(st, NO_HEADER); SetLater(Directive(st, NO_HEADER).1, c)))
  }

  const NO_HEADER := Header(0, 0, 0, "")

  lemma NumberFields(st: Input, x: nat, y: nat)
    ensures AfterNumber(st, x).1 == AfterNumber(st, y).1
    ensures st.good && SkipSpace(st.rest) != "" ==> AfterNumber(st, x).0 == AfterNumber(st, y).0
    ensures !(st.good && SkipSpace(st.rest) != "") ==> AfterNumber(st, x).0 == x
  {
  }

  /** Where a line ends does not depend on the header so far, and neither does a field it assigns. */
  lemma DirectiveField(st: Input, h: Header, g: Header, c: char)
    requires c in "iopt"
    ensures Directive(st, h).1 == Directive(st, g).1
    ensures if Assigns(st, c) then Field(Directive(st, h).0, c) == Field(Directive(st, g).0, c)
      else Field(Directive(st, h).0, c) == Field(h, c)
  {
    hide AfterLine, AfterNumber, SkipSpace;
    var st1 := AfterLine(st, ' ').1;
    NumberFields(st1, h.nInputs, g.nInputs);
    NumberFields(st1, h.nOutputs, g.nOutputs);
    NumberFields(st1, h.nTerms, g.nTerms);
  }

  lemma {:induction false} HeaderField(st: Input, h: Header, g: Header, c: char)
    requires c in "iopt"
    ensures HeaderFrom(st, h).1 == HeaderFrom(st, g).1
    ensures if SetLater(st, c) then Field(HeaderFrom(st, h).0, c) == Field(HeaderFrom(st, g).0, c)
      else Field(HeaderFrom(st, h).0, c) == Field(h, c)
    decreases |st.rest|
  {
    hide Directive, Assigns, Field;
    if StartsDirective(st) {
      DirectiveShrinks(st, h);
      DirectiveField(st, h, g, c);
      DirectiveField(st, g, h, c);
      DirectiveField(st, h, NO_HEADER, c);
      DirectiveField(st, g, NO_HEADER, c);
      HeaderField(Directive(st, h).1, Directive(st, h).0, Directive(st, g).0, c);
      HeaderField(Directive(st, h).1, Directive(st, g).0, Directive(st, h).0, c);
    }
  }

  // Where the header ends.

  /** The streams hold the same text and differ at most in how the end of an empty one was met. */
  predicate SameEnd(x: Input, y: Input) {
    x.rest == y.rest && (x.good == y.good || x.rest == "")
  }

  lemma {:induction false} HeaderEnd(st: Input, h: Header)
    ensures var e := HeaderFrom(st, h).1;
      && |e.rest| <= |st.rest|
      && (!st.good ==> e == Input(st.rest, false))
      && (st.rest == "" ==> e == Input("", false))
      && (StartsDirective(st) ==> |e.rest| < |st.rest|)
      && (st.good && st.rest != "" && !StartsDirective(st) ==> e == st)
    decreases |st.rest|
  {
    hide Directive;
    if StartsDirective(st) {
      DirectiveShrinks(st, h);
      var (h1, st1) := Directive(st, h);
      HeaderEnd(st1, h1);
    }
  }

  /** Reading a number passes over white space up to `w` and a sign and digits up to `e`. */
  lemma NumberSpan(st: Input, before: nat) returns (w: nat, e: nat)
    requires st.good
    ensures var after := AfterNumber(st, before).1;
      && w <= e <= |st.rest| && after.rest == st.rest[e..]
      && (forall i | 0 <= i < w :: IsSpace(st.rest[i]))
      && (w < |st.rest| ==> !IsSpace(st.rest[w]))
      && (forall i | w <= i < e :: IsSign(st.rest[i]) || IsDigit(st.rest[i]))
      && (after.good ==> w < e < |st.rest|)
  {
    hide Decimal, IsDigit, SkipSpace;
    var text := st.rest;
    w := SpaceSpan(text);
    var s := SkipSpace(text);
    if s == "" {
      e := |text|;
    } else {
      var body := if IsSign(s[0]) then s[1..] else s;
      var ds := DigitPrefix(body);
      e := w + |s| - |body| + |ds|;
      assert body == text[w + |s| - |body|..];
      assert body[|ds|..] == text[e..];
      forall i | w <= i < e ensures IsSign(text[i]) || IsDigit(text[i]) {
        if i >= w + |s| - |body| { assert text[i] == ds[i - (w + |s| - |body|)]; }
      }
    }
  }

  lemma {:induction false} SpaceSpan(s: string) returns (w: nat)
    ensures w <= |s| && SkipSpace(s) == s[w..]
    ensures (forall i | 0 <= i < w :: IsSpace(s[i])) && (w < |s| ==> !IsSpace(s[w]))
  {
    hide IsSpace;
    if s != "" && IsSpace(s[0]) {
      var u := SpaceSpan(s[1..]);
      w := u + 1;
    } else {
      w := 0;
    }
  }

  lemma {:induction false} LineSpan(s: string, e: nat)
    requires e <= |s| && '\n' !in s[..e]
    ensures |Until(s, '\n')| == e + |Until(s[e..], '\n')|
  {
    assert s == s[..e] + s[e..];
    UntilPasses(s[..e], s[e..], '\n');
  }

  /** A number that stays on its line leaves the rest of the header where skipping the line would, unless it fails
      before the end of the text. */
  lemma NumberOnLine(st: Input, before: nat, e: nat)
    requires st.good && e <= |st.rest| && '\n' !in st.rest[..e]
    requires AfterNumber(st, before).1.rest == st.rest[e..] && (AfterNumber(st, before).1.good ==> e < |st.rest|)
    ensures var d, sw := AfterLine(AfterNumber(st, before).1, '\n').1, AfterLine(st, '\n').1;
      d == sw || (!d.good && |sw.rest| < |d.rest|)
  {
    hide AfterNumber, Until;
    var after := AfterNumber(st, before).1;
    LineSpan(st.rest, e);
    var m := |Until(st.rest, '\n')|;
    if after.good {
      if m < |st.rest| { assert st.rest[e..][m - e + 1..] == st.rest[m + 1..]; }
    }
  }

  /** White space before a number can run past the line. Then what skipping the line leaves starts inside that white
      space or at the number. */
  lemma NumberPastLine(st: Input, before: nat, w: nat, e: nat, h: Header, g: Header)
    requires st.good && w <= e <= |st.rest| && '\n' in st.rest[..e]
    requires AfterNumber(st, before).1.rest == st.rest[e..]
    requires forall i | 0 <= i < w :: IsSpace(st.rest[i])
    requires w < |st.rest| ==> !IsSpace(st.rest[w])
    requires forall i | w <= i < e :: IsSign(st.rest[i]) || IsDigit(st.rest[i])
    requires AfterNumber(st, before).1.good ==> w < e < |st.rest|
    ensures var d, sw := AfterLine(AfterNumber(st, before).1, '\n').1, AfterLine(st, '\n').1;
      HeaderFrom(sw, h).1 == HeaderFrom(d, g).1 <==> SameEnd(d, sw)
  {
    hide AfterNumber, HeaderFrom, Until;
    var s := st.rest;
    var after := AfterNumber(st, before).1;
    var d, sw := AfterLine(after, '\n').1, AfterLine(st, '\n').1;
    var m := |Until(s, '\n')|;
    FirstBreak(s, e);
    forall j | w <= j < e ensures s[j] != '\n' {
      assert IsSign(s[j]) || IsDigit(s[j]);
    }
    assert sw == Input(s[m + 1..], true);
    HeaderEnd(d, g);
    HeaderEnd(sw, h);
    LineShrinks(after, '\n');
    if m + 1 < w {
      assert sw.rest[0] == s[m + 1] && IsSpace(s[m + 1]);
      assert !StartsDirective(sw);
    } else if w < e {
      assert sw.rest[0] == s[w];
      assert !StartsDirective(sw);
    }
  }

  lemma FirstBreak(s: string, e: nat)
    requires e <= |s| && '\n' in s[..e]
    ensures |Until(s, '\n')| < e && s[|Until(s, '\n')|] == '\n'
  {
    hide Until;
    var p := Until(s, '\n');
    var i :| 0 <= i < e && s[..e][i] == '\n';
    assert s[i] == '\n';
    forall j | 0 <= j < |p| ensures s[j] != '\n' {
      assert s[j] == p[j];
    }
  }

  /** After a counting line the header goes on from the same place as after skipping the line only in the cases that
      `SameEnd` names. */
  lemma NumberLineEnd(st: Input, before: nat, h: Header, g: Header)
    ensures var d, sw := AfterLine(AfterNumber(st, before).1, '\n').1, AfterLine(st, '\n').1;
      HeaderFrom(sw, h).1 == HeaderFrom(d, g).1 <==> SameEnd(d, sw)
  {
    hide AfterNumber, HeaderFrom, Until;
    var d, sw := AfterLine(AfterNumber(st, before).1, '\n').1, AfterLine(st, '\n').1;
    HeaderEnd(d, g);
    HeaderEnd(sw, h);
    HeaderField(sw, h, g, 'i');
    if !st.good {
      FailedNumber(st, before);
    } else {
      var w, e := NumberSpan(st, before);
      if '\n' in st.rest[..e] {
        NumberPastLine(st, before, w, e, h, g);
      } else {
        NumberOnLine(st, before, e);
      }
    }
  }

  lemma FailedNumber(st: Input, before: nat)
    requires !st.good
    ensures AfterNumber(st, before) == (before, st)
  {
  }

  /** What the rows start from: the declared counts, the kind and the text. The count of terms is read and never
      used. */
  function Start(st: Input, h: Header): (nat, nat, Kind, Input) {
    var (h1, st1) := HeaderFrom(st, h);
    (h1.nInputs, h1.nOutputs, KindOf(h1.kindText), st1)
  }

  predicate Alike(h: Header, g: Header) {
    h.nInputs == g.nInputs && h.nOutputs == g.nOutputs && KindOf(h.kindText) == KindOf(g.kindText)
  }

  /** What a comment without a space swallows makes no difference to the rows: there is nothing left, or it ends where
      the next header line ends, and that line changes neither count nor kind or assigns a field that is assigned
      again later. */
  predicate Harmless(rest: string, h: Header) {
    var st := Input(rest, true);
    rest == "" ||
    (StartsDirective(st) &&
     SameEnd(Directive(st, h).1, AfterComment(st)) &&
     (Alike(Directive(st, h).0, h) || SetLater(AfterComment(st), Letter(st))))
  }

  /** After a header line that starts with '#' the rows start from the same counts, kind and text as without it,
      exactly when the line holds a space or what it swallows makes no difference. */
  lemma CommentInHeaderIff(t: string, rest: string, h: Header)
    requires '\n' !in t
    ensures Start(Input("#" + t + "\n" + rest, true), h) == Start(Input(rest, true), h) <==>
      ' ' in t || Harmless(rest, h)
  {
    hide HeaderFrom, Directive, AfterComment, SameEnd, SetLater, Letter, KindOf;
    CommentHeader(t, rest, h);
    var st := Input(rest, true);
    if ' ' !in t {
      HeaderEnd(st, h);
      HeaderEnd(AfterComment(st), h);
      if rest == "" {
        NothingSwallowed(h);
      } else if StartsDirective(st) {
        SwallowedLine(st, h);
      } else {
        CommentShrinks(st);
      }
    }
  }

  /** Whatever follows, exactly the comments with a space are ignored. */
  lemma CommentSkippedIff(t: string, h: Header)
    requires '\n' !in t
    ensures (forall rest :: Start(Input("#" + t + "\n" + rest, true), h) == Start(Input(rest, true), h)) <==> ' ' in t
  {
    hide Start, Directive, AfterComment, SameEnd, SetLater, Letter, Alike;
    forall rest { CommentInHeaderIff(t, rest, h); }
    assert !StartsDirective(Input("-", true));
    assert !Harmless("-", h);
    CommentInHeaderIff(t, "-", h);
  }

  /** Reading depends on the header only through what the rows start from. */
  lemma ReadStart(text: string)
    ensures var (nIn, nOut, kind, st) := Start(Input(text, true), Header(0, 0, 0, ""));
      ReadText(text) == RowsFrom(st, kind, nIn, nOut, seq(nOut, _ => []))
  {
    hide HeaderFrom, RowsFrom, KindOf;
  }

  /** At the head of a file, a comment with a space is ignored, and so is one that swallows nothing that matters. */
  lemma CommentAtHead(t: string, rest: string)
    requires '\n' !in t && (' ' in t || Harmless(rest, Header(0, 0, 0, "")))
    ensures ReadText("#" + t + "\n" + rest) == ReadText(rest)
  {
    hide Start, ReadText, RowsFrom, Harmless;
    CommentInHeaderIff(t, rest, Header(0, 0, 0, ""));
    ReadStart("#" + t + "\n" + rest);
    ReadStart(rest);
  }

  /** At the head of a file exactly the comments with a space are ignored whatever follows. */
  lemma CommentAtHeadIff(t: string)
    requires '\n' !in t
    ensures (forall rest :: ReadText("#" + t + "\n" + rest) == ReadText(rest)) <==> ' ' in t
  {
    hide ReadText, Harmless;
    if ' ' in t {
      forall rest { CommentAtHead(t, rest); }
    } else {
      HeadSwallowed(t);
    }
  }

  /** The comment takes the declaration of the inputs along. */
  lemma HeadSwallowed(t: string)
    requires '\n' !in t && ' ' !in t
    ensures ReadText("#" + t + "\n" + ".i 1\n") == Endless
    ensures ReadText(".i 1\n") != Endless
  {
    hide RowsFrom, KindOf, Directive, HeaderFrom, AfterLine;
    var h := Header(0, 0, 0, "");
    CommentHeader(t, ".i 1\n", h);
    OnlyInputs();
    EmptyHeader(h);
    EndlessTextIff("#" + t + "\n" + ".i 1\n");
    EndlessTextIff(".i 1\n");
  }

  lemma OnlyInputs()
    ensures AfterComment(Input(".i 1\n", true)) == Input("", true)
    ensures HeaderFrom(Input(".i 1\n", true), Header(0, 0, 0, "")).0.nInputs == 1
  {
    hide Directive, AfterLine, HeaderFrom;
    DigitsOfOne();
    var h := Header(0, 0, 0, "");
    assert ".i 1\n" == ['.', 'i', ' '] + Digits(1) + "\n" + "";
    NumberLine('i', 1, "", h);
    HeaderStep(Input(".i 1\n", true), h);
    EmptyHeader(h.(nInputs := 1));
    assert ".i 1\n" == ".i" + [' '] + "1\n";
    LineAt(".i", ' ', "1\n");
    assert "1\n" == "1" + ['\n'] + "";
    LineAt("1", '\n', "");
  }

  lemma EmptyHeader(h: Header)
    ensures HeaderFrom(Input("", true), h) == (h, Input("", false))
  {
  }

  lemma NothingSwallowed(h: Header)
    ensures HeaderFrom(AfterComment(Input("", true)), h) == HeaderFrom(Input("", true), h)
  {
  }

  lemma CommentShrinks(st: Input)
    requires st.good && st.rest != ""
    ensures |AfterComment(st).rest| < |st.rest|
  {
    hide AfterLine;
    LineShrinks(st, ' ');
    LineShrinks(AfterLine(st, ' ').1, '\n');
  }

  /** Skipping a header line instead of reading it. */
  lemma SwallowedLine(st: Input, h: Header)
    requires StartsDirective(st)
    ensures Start(AfterComment(st), h) == Start(st, h) <==>
      SameEnd(Directive(st, h).1, AfterComment(st)) &&
      (Alike(Directive(st, h).0, h) || SetLater(AfterComment(st), Letter(st)))
  {
    hide HeaderFrom, Directive, AfterComment, SetLater, SameEnd, Letter, KindOf;
    var (h1, d) := Directive(st, h);
    var sw := AfterComment(st);
    HeaderStep(st, h);
    LineEnd(st, h);
    if SameEnd(d, sw) { SwallowedField(st, h); }
  }

  lemma LineEnd(st: Input, h: Header)
    ensures var (h1, d) := Directive(st, h); var sw := AfterComment(st);
      HeaderFrom(sw, h).1 == HeaderFrom(d, h1).1 <==> SameEnd(d, sw)
  {
    hide HeaderFrom, AfterLine, AfterNumber;
    var st1 := AfterLine(st, ' ').1;
    var h1 := Directive(st, h).0;
    NumberLineEnd(st1, h.nInputs, h, h1);
    NumberLineEnd(st1, h.nOutputs, h, h1);
    NumberLineEnd(st1, h.nTerms, h, h1);
    HeaderField(AfterComment(st), h, h1, 'i');
  }

  lemma SameEndHeaders(x: Input, y: Input, h: Header)
    requires SameEnd(x, y)
    ensures HeaderFrom(x, h) == HeaderFrom(y, h)
  {
    hide Directive;
  }

  /** What of a field the rows can see. */
  function Seen(h: Header, c: char): (nat, Kind) {
    if c == 'p' then (0, UNDEF) else (Field(h, c).0, KindOf(Field(h, c).1))
  }

  lemma SeenDetermines(h: Header, g: Header)
    ensures Alike(h, g) <==> forall c | c in "iopt" :: Seen(h, c) == Seen(g, c)
  {
    hide KindOf;
    assert 'i' in "iopt" && 'o' in "iopt" && 't' in "iopt";
    if forall c | c in "iopt" :: Seen(h, c) == Seen(g, c) {
      assert Seen(h, 'i') == Seen(g, 'i') && Seen(h, 'o') == Seen(g, 'o') && Seen(h, 't') == Seen(g, 't');
    }
  }

  /** The one field that the line assigns decides. */
  lemma SwallowedField(st: Input, h: Header)
    requires StartsDirective(st) && SameEnd(Directive(st, h).1, AfterComment(st))
    ensures Start(AfterComment(st), h) == Start(Directive(st, h).1, Directive(st, h).0) <==>
      Alike(Directive(st, h).0, h) || SetLater(AfterComment(st), Letter(st))
  {
    hide HeaderFrom, Directive, AfterComment, SetLater, SameEnd, Field, Assigns, Letter, KindOf;
    var (h1, d) := Directive(st, h);
    var sw := AfterComment(st);
    SameEndHeaders(d, sw, h1);
    HeaderField(sw, h, h1, 'i');
    var c := Letter(st);
    var r, r1 := HeaderFrom(sw, h).0, HeaderFrom(sw, h1).0;
    forall x | x in "iopt"
      ensures x != c ==> Field(h1, x) == Field(h, x)
      ensures SetLater(sw, x) ==> Field(r, x) == Field(r1, x)
      ensures !SetLater(sw, x) ==> Field(r, x) == Field(h, x) && Field(r1, x) == Field(h1, x)
    {
      DirectiveField(st, h, h, x);
      NotAssigned(st, x);
      HeaderField(sw, h, h1, x);
      HeaderField(sw, h1, h, x);
    }
    SeenDetermines(r, r1);
    SeenDetermines(h1, h);
    assert Start(sw, h) == Start(sw, h1) <==> Alike(r, r1);
  }

  lemma NotAssigned(st: Input, x: char)
    ensures x != Letter(st) ==> !Assigns(st, x)
  {
  }

  // ---- Comments among the rows ----

  /** The line up to its first space, and after it. */
  function RowInput(line: string): string {
    Until(line, ' ')
  }

  function RowOutput(line: string): string {
    var p := Until(line, ' ');
    if |p| < |line| then line[|p| + 1..] else ""
  }

  predicate FitsRow(line: string, nIn: nat, nOut: nat) {
    ' ' in line && |RowInput(line)| == nIn && |RowOutput(line)| == nOut
  }

  /** A comment line that does not fit a row ends the reading, one that does is read as a row. */
  lemma CommentAmongRows(t: string, rest: string, kind: Kind, nIn: nat, nOut: nat, cubes: seq<seq<Cube>>)
    requires '\n' !in t && |cubes| == nOut
    ensures var line := "#" + t; var r := RowsFrom(Input(line + "\n" + rest, true), kind, nIn, nOut, cubes);
      && (FitsRow(line, nIn, nOut) && !WideLiteral(RowInput(line)) ==>
           r == RowsFrom(Input(rest, true), kind, nIn, nOut, AddTo(cubes, CubeOf(RowInput(line)), RowOutput(line))))
      && (FitsRow(line, nIn, nOut) && WideLiteral(RowInput(line)) ==> r == TooWide)
      && (!FitsRow(line, nIn, nOut) && ' ' in t ==> r == Finished(TwoLvl(kind, nIn, cubes)))
  {
    hide Until, CubeOf, AddTo, WideLiteral, RowsFrom;
    var line := "#" + t;
    var st := Input(line + "\n" + rest, true);
    RowCases(st, kind, nIn, nOut, cubes);
    if ' ' in t {
      assert line[1..] == t;
      assert ' ' in line;
      UntilStops(line, ' ');
      var p := Until(line, ' ');
      var q := line[|p| + 1..];
      assert line == p + [' '] + q;
      assert st.rest == p + [' '] + (q + ['\n'] + rest);
      LineAt(p, ' ', q + ['\n'] + rest);
      LineAt(q, '\n', rest);
      HashFirst(t);
    }
  }

  lemma HashFirst(t: string)
    ensures var p := Until("#" + t, ' '); p != "" && p[0] == '#'
  {
  }

  /** A comment without a space runs into the next line; it ends the reading unless both together are as wide as the
      inputs of a row. */
  lemma SpacelessAmongRows(t: string, rest: string, kind: Kind, nIn: nat, nOut: nat, cubes: seq<seq<Cube>>)
    requires '\n' !in t && ' ' !in t && |cubes| == nOut
    requires |"#" + t + "\n" + Until(rest, ' ')| != nIn
    ensures RowsFrom(Input("#" + t + "\n" + rest, true), kind, nIn, nOut, cubes) == Finished(TwoLvl(kind, nIn, cubes))
  {
    hide Until, CubeOf, AddTo, WideLiteral, RowsFrom;
    var text := "#" + t + "\n" + rest;
    RowCases(Input(text, true), kind, nIn, nOut, cubes);
    UntilPasses("#" + t + "\n", rest, ' ');
  }

  /** The row of `nIn` columns `c` that every output wants. */
  function UniformRow(c: char, nIn: nat, nOut: nat): string {
    seq(nIn, _ => c) + [' '] + seq(nOut, _ => '1') + ['\n']
  }

  lemma UniformRowRead(c: char, kind: Kind, nIn: nat, nOut: nat, cubes: seq<seq<Cube>>)
    requires c == '-' || c == '1'
    requires |cubes| == nOut
    ensures Until(UniformRow(c, nIn, nOut), ' ') == seq(nIn, _ => c)
    ensures c == '1' && nIn > WIDTH ==>
      RowsFrom(Input(UniformRow(c, nIn, nOut), true), kind, nIn, nOut, cubes) == TooWide
    ensures c == '-' && (nIn > 0 || nOut > 0) ==>
      RowsFrom(Input(UniformRow(c, nIn, nOut), true), kind, nIn, nOut, cubes) ==
        Finished(TwoLvl(kind, nIn, AddTo(cubes, CubeOf(seq(nIn, _ => c)), seq(nOut, _ => '1'))))
  {
    hide Until, CubeOf, AddTo, RowsFrom;
    var input, output := seq(nIn, _ => c), seq(nOut, _ => '1');
    var text := UniformRow(c, nIn, nOut);
    assert text == input + [' '] + (output + ['\n'] + "");
    UntilAt(input, ' ', output + ['\n'] + "");
    LineAt(input, ' ', output + ['\n'] + "");
    LineAt(output, '\n', "");
    RowCases(Input(text, true), kind, nIn, nOut, cubes);
    if nIn > WIDTH { assert input[WIDTH] == c; }
    if c == '-' && (nIn > 0 || nOut > 0) {
      EmptyRest(kind, nIn, nOut, AddTo(cubes, CubeOf(input), output));
    }
  }

  lemma EmptyRest(kind: Kind, nIn: nat, nOut: nat, cubes: seq<seq<Cube>>)
    requires |cubes| == nOut
    ensures RowsFrom(Input("", true), kind, nIn, nOut, cubes) ==
      if nIn > 0 || nOut > 0 then Finished(TwoLvl(kind, nIn, cubes)) else Endless
  {
    hide CubeOf, AddTo;
    RowCases(Input("", true), kind, nIn, nOut, cubes);
    if nIn == 0 && nOut == 0 { FailedEndless(Input("", false), kind); assert AddTo(cubes, CubeOf(""), "") == []; }
  }

  /** Without outputs every reading of narrow rows is the same. */
  lemma {:induction false} NoOutputs(st: Input, kind: Kind, nIn: nat)
    requires 1 <= nIn <= WIDTH
    ensures RowsFrom(st, kind, nIn, 0, []) == Finished(TwoLvl(kind, nIn, []))
    decreases |st.rest|, st.good
  {
    hide CubeOf, Until, CharAt;
    RowCases(st, kind, nIn, 0, []);
    var (input, st1) := AfterLine(st, ' ');
    var (output, st2) := AfterLine(st1, '\n');
    if st.good {
      NoOutputs(st2, kind, nIn);
      if output == "" { assert AddTo([], CubeOf(input), output) == []; }
    }
  }

  /** A comment line among the rows is ignored, whatever follows, exactly when it has the width of a row, no literal in
      a column from 32 on and no output marked 1. Nothing can be told from the result when there is no output and
      no column is that far on. */
  lemma CommentRowIgnoredIff(t: string, kind: Kind, nIn: nat, nOut: nat, cubes: seq<seq<Cube>>)
    requires '\n' !in t && |cubes| == nOut
    ensures (forall rest ::
        RowsFrom(Input("#" + t + "\n" + rest, true), kind, nIn, nOut, cubes) ==
        RowsFrom(Input(rest, true), kind, nIn, nOut, cubes)) <==>
      (FitsRow("#" + t, nIn, nOut) && !WideLiteral(RowInput("#" + t)) && '1' !in RowOutput("#" + t)) ||
      (nOut == 0 && 1 <= nIn <= WIDTH)
  {
    hide RowsFrom, WideLiteral, CubeOf, AddTo, RowInput, RowOutput;
    var line := "#" + t;
    if FitsRow(line, nIn, nOut) && !WideLiteral(RowInput(line)) && '1' !in RowOutput(line) {
      forall rest
        ensures RowsFrom(Input(line + "\n" + rest, true), kind, nIn, nOut, cubes) ==
          RowsFrom(Input(rest, true), kind, nIn, nOut, cubes)
      {
        CommentAmongRows(t, rest, kind, nIn, nOut, cubes);
        NothingAdded(cubes, CubeOf(RowInput(line)), RowOutput(line));
      }
    } else if nOut == 0 && 1 <= nIn <= WIDTH {
      forall rest
        ensures RowsFrom(Input(line + "\n" + rest, true), kind, nIn, nOut, cubes) ==
          RowsFrom(Input(rest, true), kind, nIn, nOut, cubes)
      {
        NoOutputs(Input(line + "\n" + rest, true), kind, nIn);
        NoOutputs(Input(rest, true), kind, nIn);
      }
    } else {
      var rest := CommentNotIgnored(t, kind, nIn, nOut, cubes);
    }
  }

  lemma NothingAdded(cubes: seq<seq<Cube>>, c: Cube, output: string)
    requires |output| == |cubes|
    ensures '1' !in output ==> AddTo(cubes, c, output) == cubes
    ensures '1' in output ==> AddTo(cubes, c, output) != cubes
  {
    if '1' in output {
      var k :| 0 <= k < |output| && output[k] == '1';
      assert AddTo(cubes, c, output)[k] == cubes[k] + [c];
    }
  }

  /** A text that shows the difference. */
  lemma CommentNotIgnored(t: string, kind: Kind, nIn: nat, nOut: nat, cubes: seq<seq<Cube>>) returns (rest: string)
    requires '\n' !in t && |cubes| == nOut
    requires FitsRow("#" + t, nIn, nOut) ==> WideLiteral(RowInput("#" + t)) || '1' in RowOutput("#" + t)
    requires nOut == 0 ==> nIn == 0 || nIn > WIDTH
    ensures RowsFrom(Input("#" + t + "\n" + rest, true), kind, nIn, nOut, cubes) !=
      RowsFrom(Input(rest, true), kind, nIn, nOut, cubes)
  {
    hide RowsFrom, WideLiteral, CubeOf, AddTo, RowInput, RowOutput;
    var line := "#" + t;
    if FitsRow(line, nIn, nOut) || (nIn == 0 && nOut == 0) {
      rest := "";
      CommentAmongRows(t, rest, kind, nIn, nOut, cubes);
      EmptyRest(kind, nIn, nOut, cubes);
      if FitsRow(line, nIn, nOut) {
        FitsPositive(t, nIn, nOut);
        EmptyRest(kind, nIn, nOut, AddTo(cubes, CubeOf(RowInput(line)), RowOutput(line)));
        NothingAdded(cubes, CubeOf(RowInput(line)), RowOutput(line));
      } else if ' ' !in t {
        SpacelessAmongRows(t, rest, kind, nIn, nOut, cubes);
      }
    } else {
      var c := if nOut == 0 then '1' else '-';
      rest := UniformRow(c, nIn, nOut);
      UniformRowRead(c, kind, nIn, nOut, cubes);
      CommentAmongRows(t, rest, kind, nIn, nOut, cubes);
      if ' ' !in t { SpacelessAmongRows(t, rest, kind, nIn, nOut, cubes); }
      if nOut > 0 {
        var ones := seq(nOut, _ => '1');
        assert ones[0] == '1';
        NothingAdded(cubes, CubeOf(seq(nIn, _ => c)), ones);
      }
    }
  }

  lemma FitsPositive(t: string, nIn: nat, nOut: nat)
    requires FitsRow("#" + t, nIn, nOut)
    ensures nIn > 0
  {
    HashFirst(t);
  }

  /** A file with a comment line between its rows. */
  function CommentedText(first: seq<Cube>, t: string, second: seq<Cube>, n: nat, count: nat): string {
    ".i " + Digits(n) + "\n" + ".o 1\n" + ".p " + Digits(count) + "\n" +
    (Rows(first, n) + ("#" + t + "\n" + (Rows(second, n) + ".e\n")))
  }

  /** What the comment line adds to the rows read. */
  function CommentCubes(t: string): seq<Cube> {
    if RowOutput("#" + t) == "1" then [CubeOf(RowInput("#" + t))] else []
  }

  /** A comment among the rows is read as a row, or else everything after it is lost. */
  lemma CommentInFile(first: seq<Cube>, t: string, second: seq<Cube>, n: nat, count: nat)
    requires first != [] && AllOver(first, Below(n)) && AllOver(second, Below(n)) && n <= WIDTH && count < WORD
    requires '\n' !in t
    ensures ReadText(CommentedText(first, t, second, n, count)) == Finished(TwoLvl(UNDEF, n,
      [if FitsRow("#" + t, n, 1) then first + CommentCubes(t) + second else first]))
  {
    hide Rows, Digits, HeaderFrom, RowsFrom, KindOf, ReadText, AllOver, FitsRow, CubeOf, RowInput, RowOutput;
    var after := Rows(second, n) + ".e\n";
    var tail := "#" + t + "\n" + after;
    var body := Rows(first, n) + tail;
    var h := Header(n, 1, count, "");
    HeaderRead(n, count, body);
    HeaderStops(first, n, tail, h);
    ReadFrom(CommentedText(first, t, second, n, count), h, Input(body, true));
    NoKind();
    var none: seq<seq<Cube>> := seq(1, _ => []);
    assert none == [[]];
    RowsThen(first, n, tail, UNDEF, []);
    assert [] + first == first;
    CommentThenRows(first, t, second, n);
  }

  lemma CommentThenRows(first: seq<Cube>, t: string, second: seq<Cube>, n: nat)
    requires AllOver(second, Below(n)) && n <= WIDTH && '\n' !in t
    ensures RowsFrom(Input("#" + t + "\n" + (Rows(second, n) + ".e\n"), true), UNDEF, n, 1, [first]) ==
      Finished(TwoLvl(UNDEF, n, [if FitsRow("#" + t, n, 1) then first + CommentCubes(t) + second else first]))
  {
    hide Rows, RowsFrom, AllOver, CubeOf, RowInput, RowOutput, AddTo;
    var line := "#" + t;
    var after := Rows(second, n) + ".e\n";
    CommentAmongRows(t, after, UNDEF, n, 1, [first]);
    if FitsRow(line, n, 1) {
      var c := CubeOf(RowInput(line));
      assert !WideLiteral(RowInput(line));
      OneOutput(first, c, RowOutput(line));
      RowsRead(second, n, UNDEF, first + CommentCubes(t));
    } else if ' ' !in t {
      SpacelessBeforeRows(first, t, second, n);
    }
  }

  lemma OneOutput(first: seq<Cube>, c: Cube, output: string)
    requires |output| == 1
    ensures AddTo([first], c, output) == [first + if output == "1" then [c] else []]
  {
    assert first + [] == first;
  }

  /** The comment swallows the next row or the end marker, neither of which leaves a row of the right width. */
  lemma SpacelessBeforeRows(first: seq<Cube>, t: string, second: seq<Cube>, n: nat)
    requires '\n' !in t && ' ' !in t
    ensures RowsFrom(Input("#" + t + "\n" + (Rows(second, n) + ".e\n"), true), UNDEF, n, 1, [first]) ==
      Finished(TwoLvl(UNDEF, n, [first]))
  {
    hide RowsFrom, AddTo, CubeOf, Str, Until, WideLiteral;
    var after := Rows(second, n) + ".e\n";
    if second == [] {
      NoRows(n);
      assert after == ".e\n";
      var text := "#" + t + "\n" + after;
      assert ' ' !in text;
      WholeLine(text, ' ');
      RowCases(Input(text, true), UNDEF, n, 1, [first]);
    } else {
      var row := Str(second[0], n);
      StrChars(second[0], n);
      var more := "1\n" + (Rows(second[1..], n) + ".e\n");
      assert after == row + [' '] + more;
      UntilAt(row, ' ', more);
      SpacelessAmongRows(t, after, UNDEF, n, 1, [first]);
    }
  }

  /** Such a file reads as if the comment were not there exactly when the comment fits a row that no output wants, or
      when it does not fit and nothing follows. */
  lemma CommentInFileIff(first: seq<Cube>, t: string, second: seq<Cube>, n: nat, count: nat)
    requires first != [] && AllOver(first, Below(n)) && AllOver(second, Below(n)) && n <= WIDTH && count < WORD
    requires '\n' !in t
    ensures ReadText(CommentedText(first, t, second, n, count)) == Finished(TwoLvl(UNDEF, n, [first + second])) <==>
      if FitsRow("#" + t, n, 1) then RowOutput("#" + t) != "1" else second == []
  {
    hide ReadText, CommentedText, AllOver, FitsRow, CubeOf, RowInput, RowOutput;
    CommentInFile(first, t, second, n, count);
    var read := if FitsRow("#" + t, n, 1) then first + CommentCubes(t) + second else first;
    SameList(read, first + second);
    JoinedLengths(first, t, second);
  }

  lemma SameList(s: seq<Cube>, t: seq<Cube>)
    ensures [s] == [t] <==> s == t
  {
    assert [s][0] == s && [t][0] == t;
  }

  lemma JoinedLengths(first: seq<Cube>, t: string, second: seq<Cube>)
    ensures first + CommentCubes(t) + second == first + second <==> RowOutput("#" + t) != "1"
    ensures first == first + second <==> second == []
  {
    hide RowInput, RowOutput, CubeOf;
    assert |first + CommentCubes(t) + second| == |first| + |CommentCubes(t)| + |second|;
    if RowOutput("#" + t) != "1" { assert first + [] + second == first + second; }
    if second == [] { assert first + second == first; }
  }

  /** The comment `# 1` in a file of one input adds the constant 1. */
  lemma CommentAddsOne(first: seq<Cube>, second: seq<Cube>, count: nat)
    requires first != [] && AllOver(first, Below(1)) && AllOver(second, Below(1)) && count < WORD
    ensures ReadText(CommentedText(first, " 1", second, 1, count)) ==
      Finished(TwoLvl(UNDEF, 1, [first + [CUBE_ONE] + second]))
  {
    hide ReadText, CommentedText, AllOver;
    CommentInFile(first, " 1", second, 1, count);
    var line := "#" + " 1";
    assert Until(line, ' ') == "#";
    assert RowOutput(line) == "1";
    assert CubeOf("#") == CUBE_ONE;
  }

  // ---- A comment of the header that swallows a row ----

  /** How many cubes a reading adds does not depend on the cubes there are. */
  lemma {:induction false} AddsAlike(st: Input, kind: Kind, nIn: nat, nOut: nat, c: seq<seq<Cube>>, d: seq<seq<Cube>>)
    requires |c| == |d| == nOut
    ensures var r, s := RowsFrom(st, kind, nIn, nOut, c), RowsFrom(st, kind, nIn, nOut, d);
      && (r.Finished? <==> s.Finished?) && (!r.Finished? ==> r == s)
      && (r.Finished? ==> |r.f.cubes| == |s.f.cubes| == nOut)
      && (r.Finished? ==> r.f.kind == s.f.kind && r.f.nInputs == s.f.nInputs)
      && (r.Finished? ==> forall k | 0 <= k < nOut :: |r.f.cubes[k]| - |c[k]| == |s.f.cubes[k]| - |d[k]|)
    decreases |st.rest|, st.good
  {
    hide CubeOf, CharAt, Until, WideLiteral, RowsFrom, AddTo, AfterLine;
    RowCases(st, kind, nIn, nOut, c);
    RowCases(st, kind, nIn, nOut, d);
    var (input, st1) := AfterLine(st, ' ');
    var (output, st2) := AfterLine(st1, '\n');
    if st.good && |output| == nOut {
      AddsAlike(st2, kind, nIn, nOut, AddTo(c, CubeOf(input), output), AddTo(d, CubeOf(input), output));
      AddToLengths(c, CubeOf(input), output);
      AddToLengths(d, CubeOf(input), output);
    }
  }

  lemma AddToLengths(cubes: seq<seq<Cube>>, c: Cube, output: string)
    requires |output| == |cubes|
    ensures forall k | 0 <= k < |cubes| ::
      |AddTo(cubes, c, output)[k]| == |cubes[k]| + if output[k] == '1' then 1 else 0
  {
  }

  /** A row that is dropped is missed exactly when it marks an output and the reading finishes. */
  lemma DroppedRowIff(st: Input, kind: Kind, nIn: nat, nOut: nat, cubes: seq<seq<Cube>>)
    requires |cubes| == nOut && st.good
    requires var (input, st1) := AfterLine(st, ' '); var output := AfterLine(st1, '\n').0;
      && |input| == nIn && |output| == nOut && !WideLiteral(input)
      && !(CharAt(input, 0) == '.' && CharAt(input, 1) == 'e')
    ensures var output := AfterLine(AfterLine(st, ' ').1, '\n').0;
      RowsFrom(AfterComment(st), kind, nIn, nOut, cubes) == RowsFrom(st, kind, nIn, nOut, cubes) <==>
        '1' !in output || !RowsFrom(AfterComment(st), kind, nIn, nOut, cubes).Finished?
  {
    hide CubeOf, CharAt, Until, WideLiteral, RowsFrom, AddTo, AfterLine;
    RowCases(st, kind, nIn, nOut, cubes);
    var input := AfterLine(st, ' ').0;
    var output := AfterLine(AfterLine(st, ' ').1, '\n').0;
    var more := AddTo(cubes, CubeOf(input), output);
    AddsAlike(AfterComment(st), kind, nIn, nOut, cubes, more);
    AddToLengths(cubes, CubeOf(input), output);
    NothingAdded(cubes, CubeOf(input), output);
    if '1' in output && RowsFrom(AfterComment(st), kind, nIn, nOut, cubes).Finished? {
      var k :| 0 <= k < |output| && output[k] == '1';
      assert |more[k]| == |cubes[k]| + 1;
    }
  }

  /** A file with a comment line between its header and its rows. */
  function CommentedHead(t: string, cubes: seq<Cube>, n: nat, count: nat): string {
    ".i " + Digits(n) + "\n" + ".o 1\n" + ".p " + Digits(count) + "\n" +
    ("#" + t + "\n" + (Rows(cubes, n) + ".e\n"))
  }

  /** There a comment without a space loses the first row. */
  lemma CommentBeforeRows(t: string, cubes: seq<Cube>, n: nat, count: nat)
    requires AllOver(cubes, Below(n)) && n <= WIDTH && count < WORD && '\n' !in t
    ensures ReadText(CommentedHead(t, cubes, n, count)) ==
      Finished(TwoLvl(UNDEF, n, [if ' ' in t || cubes == [] then cubes else cubes[1..]]))
  {
    hide Rows, Digits, HeaderFrom, RowsFrom, KindOf, ReadText, AllOver, AfterComment;
    var rows := Rows(cubes, n) + ".e\n";
    var body := "#" + t + "\n" + rows;
    var h := Header(n, 1, count, "");
    var text := CommentedHead(t, cubes, n, count);
    HeaderRead(n, count, body);
    CommentHeader(t, rows, h);
    NoKind();
    var none: seq<seq<Cube>> := seq(1, _ => []);
    assert none == [[]];
    if ' ' in t {
      HeaderThenRows(text, cubes, n, h);
    } else if cubes == [] {
      NoRows(n);
      EndSwallowed(h);
      ReadFrom(text, h, Input("", false));
      NothingLeft("", n, UNDEF, []);
    } else {
      RowSwallowed(cubes, n);
      Rest(cubes, n);
      HeaderThenRows(text, cubes[1..], n, h);
    }
  }

  lemma Rest(cubes: seq<Cube>, n: nat)
    requires cubes != [] && AllOver(cubes, Below(n))
    ensures AllOver(cubes[1..], Below(n))
  {
    hide Over;
  }

  lemma HeaderThenRows(text: string, cubes: seq<Cube>, n: nat, h: Header)
    requires AllOver(cubes, Below(n)) && n <= WIDTH && h.nInputs == n && h.nOutputs == 1 && h.kindText == ""
    requires HeaderFrom(Input(text, true), Header(0, 0, 0, "")) == HeaderFrom(Input(Rows(cubes, n) + ".e\n", true), h)
    ensures ReadText(text) == Finished(TwoLvl(UNDEF, n, [cubes]))
  {
    hide Rows, HeaderFrom, RowsFrom, KindOf, ReadText, AllOver;
    NoKind();
    var none: seq<seq<Cube>> := seq(1, _ => []);
    assert none == [[]];
    if cubes == [] {
      NoRows(n);
      HeaderEatsEnd(h);
      ReadFrom(text, h, Input("", false));
      NothingLeft("", n, UNDEF, []);
    } else {
      HeaderStops(cubes, n, ".e\n", h);
      ReadFrom(text, h, Input(Rows(cubes, n) + ".e\n", true));
      RowsRead(cubes, n, UNDEF, []);
      assert [] + cubes == cubes;
    }
  }

  lemma EndSwallowed(h: Header)
    ensures HeaderFrom(AfterComment(Input(".e\n", true)), h) == (h, Input("", false))
  {
    hide AfterLine;
    EndMarker();
    FailedLine();
  }

  lemma RowSwallowed(cubes: seq<Cube>, n: nat)
    requires cubes != []
    ensures AfterComment(Input(Rows(cubes, n) + ".e\n", true)) == Input(Rows(cubes[1..], n) + ".e\n", true)
  {
    hide Str, AfterLine;
    var row := Str(cubes[0], n);
    var rest := Rows(cubes[1..], n) + ".e\n";
    StrChars(cubes[0], n);
    assert Rows(cubes, n) + ".e\n" == row + [' '] + ("1" + ['\n'] + rest);
    LineAt(row, ' ', "1" + ['\n'] + rest);
    LineAt("1", '\n', rest);
  }
}
