/**
 * A path string parsed end to end: "M0 0 L10 10" through `getParams`, the
 * dispatch and the handlers, down to the points `parse` returns.
 */
module PathExamples {
  import opened JsValues
  import opened PathParsing

  /** After the moveto letter, the next command letter is the `L` at offset 4. */
  lemma MoveTextFindsLine()
    ensures FindCommand("0 0 L10 10") == 4
  {
    assert FindCommand("L10 10") == 0;
    assert " L10 10"[1..] == "L10 10";
    assert "0 L10 10"[1..] == " L10 10";
    assert " 0 L10 10"[1..] == "0 L10 10";
    assert "0 0 L10 10"[1..] == " 0 L10 10";
  }

  /** The moveto's argument text runs up to the `L`: `idx` is 5 and the text is "0 0 ". */
  lemma MoveArgumentText()
    ensures NextCommand("M0 0 L10 10") == 5
    ensures ArgumentText("M0 0 L10 10") == "0 0 "
  {
    assert Drop1("M0 0 L10 10") == "0 0 L10 10";
    MoveTextFindsLine();
    assert "0 0 L10 10"[..4] == "0 0 ";
  }

  /** The moveto's arguments are "0" twice, unrounded. */
  lemma MoveArguments()
    ensures NextCommand("M0 0 L10 10") == 5
    ensures ArgumentTokens("M0 0 L10 10") == ["0", "0"]
  {
    MoveArgumentText();
    MoveTextRespaced();
    MoveTextTokens();
    assert HandleRounding("0") == "0";
  }

  /** No minus sign to space out in the moveto's arguments. */
  lemma MoveTextRespaced()
    ensures SpaceGluedMinus("0 0 ") == "0 0 "
  {
    assert Respace("", Outside) == "";
    assert Respace(" ", InRun) == " ";
    assert Respace("0 ", Outside) == "0 ";
    assert Respace(" 0 ", InRun) == " 0 ";
  }

  /** The moveto's argument text splits into two tokens; the trailing space gives none. */
  lemma MoveTextTokens()
    ensures Tokens("0 0 ") == ["0", "0"]
  {
    assert " "[1..] == "" && Tokens(" ") == [];
    assert RunLength(" ") == 0;
    assert RunLength("0 ") == 1;
    assert "0 "[..1] == "0" && "0 "[1..] == " ";
    assert Tokens("0 ") == ["0"];
    assert " 0 "[1..] == "0 ";
    assert Tokens(" 0 ") == ["0"];
    assert "0 0 "[..1] == "0" && "0 0 "[1..] == " 0 ";
    assert RunLength(" 0 ") == 0;
    assert RunLength("0 0 ") == 1;
  }

  /** No command letter follows the lineto. */
  lemma LineTextHasNoCommand()
    ensures FindCommand("10 10") == -1
  {
    assert "10 10"[1..] == "0 10" && "0 10"[1..] == " 10" && " 10"[1..] == "10";
    assert "10"[1..] == "0" && "0"[1..] == "";
  }

  /** No minus sign to space out in the lineto's arguments. */
  lemma LineTextRespaced()
    ensures SpaceGluedMinus("10 10") == "10 10"
  {
    assert "10 10"[1..] == "0 10" && "0 10"[1..] == " 10" && " 10"[1..] == "10";
    assert "10"[1..] == "0" && "0"[1..] == "";
    assert Respace("", Outside) == "";
    assert Respace("0", InRun) == "0";
    assert Respace("10", Outside) == "10";
    assert Respace(" 10", InRun) == " 10";
    assert Respace("0 10", InRun) == "0 10";
  }

  /** The lineto's argument text splits into two tokens. */
  lemma LineTextTokens()
    ensures Tokens("10 10") == ["10", "10"]
  {
    assert Join(["10", "10"], ' ') == "10 10";
    TokensOfJoin(["10", "10"]);
  }

  /** The lineto's argument text is the rest of the path: `idx` is -1 and the text is "10 10". */
  lemma LineArgumentText()
    ensures NextCommand("L10 10") == -1
    ensures ArgumentText("L10 10") == "10 10"
  {
    assert Drop1("L10 10") == "10 10";
    LineTextHasNoCommand();
  }

  /** The lineto's arguments are "10" twice, unrounded. */
  lemma LineArguments()
    ensures NextCommand("L10 10") == -1
    ensures ArgumentTokens("L10 10") == ["10", "10"]
  {
    LineArgumentText();
    LineTextRespaced();
    LineTextTokens();
    assert HandleRounding("10") == "10";
  }

  /** What `getParams` returns for the moveto. */
  lemma MoveParams(read: NumberReader)
    requires read("0") == Fin(0.0)
    ensures GetParams(read, "M0 0 L10 10") == Params(5, [Fin(0.0), Fin(0.0)])
  {
    MoveArguments();
  }

  /** What `getParams` returns for the lineto. */
  lemma LineParams(read: NumberReader)
    requires read("10") == Fin(10.0)
    ensures GetParams(read, "L10 10") == Params(-1, [Fin(10.0), Fin(10.0)])
  {
    LineArguments();
  }

  /** A first `M` with one pair of numbers emits that pair and moves to the next command. */
  lemma FirstMoveStep(params: ParamReader, s: Scan, a: Num, b: Num)
    requires ValidReader(params) && |s.rest| > 0 && s.rest[0] == 'M' && s.counter == 0
    requires params(s.rest).nums == [a, b] && params(s.rest).next >= 1
    ensures var n, p := params(s.rest).next, Point(a, b);
      Step(params, s) == Scan(s.rest[n..], n, p, p, s.out + [p])
  {
    var ps, p := params(s.rest), Point(a, b);
    Dispatch(s, ps);
    assert Emitted(2, 'M', ps.nums, 2, p) == (p, []);
  }

  /** An absolute `L` with one pair of numbers and nothing after it emits that pair and ends the text. */
  lemma LastLineStep(params: ParamReader, s: Scan, a: Num, b: Num)
    requires ValidReader(params) && |s.rest| > 0 && s.rest[0] == 'L'
    requires params(s.rest) == Params(-1, [a, b])
    ensures Step(params, s) == Scan("", s.counter + |s.rest|, Point(a, b), s.init, s.out + [Point(a, b)])
  {
    var ps, p := params(s.rest), Point(a, b);
    Dispatch(s, ps);
    assert !IsLowerCase('L') && Arg(ps.nums, 1) == b;
    assert Advance(s.curr, 'L', a, b) == p;
    assert Emitted(2, 'L', ps.nums, 2, p) == (p, []);
    assert ps.nums[0] == a;
    var e := Emitted(0, 'L', ps.nums, 2, s.curr);
    assert e.0 == p && e.1 == [p] + [];
  }

  /** A text the loop gets through in two iterations gives the points of the second. */
  lemma TwoSteps(params: ParamReader, text: string, s1: Scan, s2: Scan)
    requires ValidReader(params) && |text| > 0
    requires Step(params, Start(text)) == s1 && |s1.rest| > 0
    requires Step(params, s1) == s2 && |s2.rest| == 0
    ensures Points(params, text) == s2.out
  {
    LoopUnfolds(params, Start(text), |text| + 1);
    LoopUnfolds(params, s1, |text|);
  }

  /** The sequence facts the walk below needs about its literals. */
  lemma ExampleSlices()
    ensures var p0, p1 := Point(Fin(0.0), Fin(0.0)), Point(Fin(10.0), Fin(10.0));
      && "M0 0 L10 10"[5..] == "L10 10" && [] + [p0] == [p0]
      && 5 + |"L10 10"| == 11 && [p0] + [p1] == [p0, p1]
  {
  }

  /** The loop over "M0 0 L10 10", for any reader that finds the arguments `getParams` finds there. */
  lemma WalkExample(params: ParamReader)
    requires ValidReader(params)
    requires params("M0 0 L10 10") == Params(5, [Fin(0.0), Fin(0.0)])
    requires params("L10 10") == Params(-1, [Fin(10.0), Fin(10.0)])
    ensures Points(params, "M0 0 L10 10") == [Point(Fin(0.0), Fin(0.0)), Point(Fin(10.0), Fin(10.0))]
  {
    var p0, p1 := Point(Fin(0.0), Fin(0.0)), Point(Fin(10.0), Fin(10.0));
    var s0, s1 := Start("M0 0 L10 10"), Scan("L10 10", 5, p0, p0, [p0]);
    ExampleSlices();
    FirstMoveStep(params, s0, Fin(0.0), Fin(0.0));
    LastLineStep(params, s1, Fin(10.0), Fin(10.0));
    TwoSteps(params, "M0 0 L10 10", s1, Scan("", 11, p1, p0, [p0, p1]));
  }

  /**
   * `parse("M0 0 L10 10")`, with `parseFloat` reading "0" and "10" as the
   * numbers they spell: the moveto's point, then the lineto's.
   */
  lemma ParseExample(read: NumberReader)
    requires read("0") == Fin(0.0) && read("10") == Fin(10.0)
    ensures Points(ParamsOf(read), "M0 0 L10 10") == [Point(Fin(0.0), Fin(0.0)), Point(Fin(10.0), Fin(10.0))]
  {
    GetParamsIsValid(read);
    MoveParams(read);
    LineParams(read);
    WalkExample(ParamsOf(read));
  }
}
