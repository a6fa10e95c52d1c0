/**
 * The path-data interpreter of the scene graph: it turns the `d` attribute of
 * an SVG path into the flat list of absolute points the path visits. It
 * supports moveto with implicit lineto, closepath, lineto, horizontal and
 * vertical lineto, and the curve and arc commands (sections 8.3.2 to 8.3.8 of
 * the W3C SVG 1.1 Recommendation); of a curve or an arc only the end point is
 * kept. Anything it does not understand is skipped, and an iteration guard
 * makes the scan total.
 *
 * The parser object is modelled as the class `PathParser`; each of its methods
 * is tied to a function on the record `Scan`, which gathers the five fields the
 * methods update, and the properties of the scan are lemmas about those
 * functions.
 */
module PathParsing {
  import opened JsValues

  datatype Point = Point(x: Num, y: Num)

  /** `{}`: a point whose coordinates are still undefined. */
  const Unset: Point := Point(NaN, NaN)

  // ------------------------------------------------------------ characters

  predicate IsDigit(c: char)
  {
    '0' <= c <= '9'
  }

  predicate IsAlpha(c: char)
  {
    'a' <= c <= 'z' || 'A' <= c <= 'Z'
  }

  predicate IsSeparator(c: char)
  {
    IsJsSpace(c) || c == ',' || c == ';'
  }

  function ToLower(c: char): char
  {
    if 'A' <= c <= 'Z' then (c as int + 32) as char else c
  }

  /** The test `char == char.toLowerCase()`. */
  predicate IsLowerCase(c: char)
  {
    c == ToLower(c)
  }

  /** The letters of the `alpha` pattern, in lower case, which are also the keys of the dispatch table. */
  predicate IsCommandLetter(lc: char)
  {
    lc == 'a' || lc == 'c' || lc == 'h' || lc == 'l' || lc == 'm'
    || lc == 'q' || lc == 's' || lc == 't' || lc == 'v' || lc == 'z'
  }

  predicate IsCommand(c: char)
  {
    IsCommandLetter(ToLower(c))
  }

  /** The keys of the `curveParams` table: the curve and arc commands. */
  predicate IsCurveLetter(lc: char)
  {
    lc == 'a' || lc == 'c' || lc == 's' || lc == 'q' || lc == 't'
  }

  /** The shape of an argument group of a curve command: its size and where its end point lies. */
  datatype CurveParam = CurveParam(step: nat, start: nat)

  /** The `curveParams` table. */
  function CurveParams(lc: char): (r: CurveParam)
    requires IsCurveLetter(lc)
    ensures r.step > 0
  {
    if lc == 'a' then CurveParam(7, 5)
    else if lc == 'c' then CurveParam(6, 4)
    else if lc == 's' then CurveParam(4, 2)
    else if lc == 'q' then CurveParam(4, 2)
    else CurveParam(2, 0)
  }

  // ------------------------------------------------------------ arguments

  /** `s.search(alpha)`: the position of the first command letter, or -1. */
  function FindCommand(s: string): (r: int)
    ensures -1 <= r < |s|
    ensures r == -1 ==> forall i :: 0 <= i < |s| ==> !IsCommand(s[i])
    ensures r >= 0 ==> IsCommand(s[r]) && forall i :: 0 <= i < r ==> !IsCommand(s[i])
  {
    if |s| == 0 then -1
    else if IsCommand(s[0]) then 0
    else
      var r := FindCommand(s[1..]);
      if r == -1 then -1 else r + 1
  }

  /** `p.slice(1)` */
  function Drop1(p: string): string
  {
    if |p| == 0 then p else p[1..]
  }

  /**
   * The `idx` that `getParams` and `skipParams` compute: how far the next
   * command letter lies from the head of `p`, or -1 when there is none.
   */
  function NextCommand(p: string): (r: int)
    ensures r == -1 || 1 <= r < |p|
    ensures r == -1 ==> forall i :: 1 <= i < |p| ==> !IsCommand(p[i])
    ensures r >= 1 ==> IsCommand(p[r]) && forall i :: 1 <= i < r ==> !IsCommand(p[i])
  {
    var n := FindCommand(Drop1(p));
    if n == -1 then -1 else n + 1
  }

  /** The text the arguments of the command at the head of `p` are read from. */
  function ArgumentText(p: string): (r: string)
    ensures forall c :: c in r ==> !IsCommand(c)
    ensures r <= Drop1(p) && (|r| < |Drop1(p)| ==> IsCommand(Drop1(p)[|r|]))
    ensures r == (if NextCommand(p) == -1 then Drop1(p) else p[1..NextCommand(p)])
  {
    var path := Drop1(p);
    var n := FindCommand(path);
    if n == -1 then path else path[..n]
  }

  /**
   * Where the left-to-right search of `/(\d+)(-)(\d+)/g` stands: outside a
   * run of digits, inside a run that may start a match, or inside the second
   * run of a match just rewritten (whose digits cannot start another match,
   * since matches do not overlap).
   */
  datatype MinusScan = Outside | InRun | Matched

  /** A space goes before the head of `s`: a minus sign after a run that may start a match, followed by a digit. */
  predicate Glued(s: string, st: MinusScan)
  {
    |s| > 1 && s[0] == '-' && st == InRun && IsDigit(s[1])
  }

  /** The scan state after the head of `s`. */
  function After(s: string, st: MinusScan): MinusScan
    requires |s| > 0
  {
    if IsDigit(s[0]) then (if st == Matched then Matched else InRun)
    else if Glued(s, st) then Matched
    else Outside
  }

  /** The rewrite of `s` from scan state `st`: every character is copied, with a space put before each glued minus sign. */
  function Respace(s: string, st: MinusScan): string
    decreases |s|
  {
    if |s| == 0 then ""
    else (if Glued(s, st) then " " else "") + [s[0]] + Respace(s[1..], After(s, st))
  }

  /** `s.replace(/(\d+)(-)(\d+)/g, "$1 $2$3")`: a space goes before a minus sign that sits between two digits. */
  function SpaceGluedMinus(s: string): string
  {
    Respace(s, Outside)
  }

  /** `s` with every occurrence of `c` removed. */
  function Without(s: string, c: char): string
  {
    if |s| == 0 then "" else (if s[0] == c then "" else [s[0]]) + Without(s[1..], c)
  }

  lemma {:induction false} WithoutConcat(a: string, b: string, c: char)
    ensures Without(a + b, c) == Without(a, c) + Without(b, c)
    decreases |a|
  {
    if |a| > 0 {
      WithoutConcat(a[1..], b, c);
      assert (a + b)[1..] == a[1..] + b;
    } else {
      assert a + b == b;
    }
  }

  /** The minus rewrite only inserts spaces: removing all spaces gives the same text before and after. */
  lemma {:induction false} RespaceOnlyInsertsSpaces(s: string, st: MinusScan)
    ensures Without(Respace(s, st), ' ') == Without(s, ' ')
    decreases |s|
  {
    if |s| > 0 {
      var st' := After(s, st);
      var pre := if Glued(s, st) then " " else "";
      var rest := Respace(s[1..], st');
      assert Respace(s, st) == pre + ([s[0]] + rest);
      assert Without(pre, ' ') == "";
      calc {
        Without(Respace(s, st), ' ');
        { WithoutConcat(pre, [s[0]] + rest, ' '); }
        Without([s[0]] + rest, ' ');
        { WithoutConcat([s[0]], rest, ' '); }
        Without([s[0]], ' ') + Without(rest, ' ');
        { RespaceOnlyInsertsSpaces(s[1..], st'); }
        Without([s[0]], ' ') + Without(s[1..], ' ');
        { WithoutConcat([s[0]], s[1..], ' '); assert [s[0]] + s[1..] == s; }
        Without(s, ' ');
      }
    }
  }

  /** Every character of the rewritten text is a character of the original or an inserted space. */
  lemma {:induction false} RespaceChars(s: string, st: MinusScan)
    ensures forall c :: c in Respace(s, st) ==> c in s || c == ' '
    decreases |s|
  {
    if |s| > 0 {
      var st' := After(s, st);
      RespaceChars(s[1..], st');
      assert Respace(s, st) == (if Glued(s, st) then " " else "") + [s[0]] + Respace(s[1..], st');
      assert s == [s[0]] + s[1..];
    }
  }

  /** Text in which no digit is directly followed by a minus sign (such as `2e-4`) is left as it is. */
  lemma {:induction false} RespaceKeepsExponents(s: string, st: MinusScan)
    requires forall i :: 0 <= i < |s| - 1 ==> !(IsDigit(s[i]) && s[i + 1] == '-')
    requires st == InRun ==> |s| == 0 || s[0] != '-'
    ensures Respace(s, st) == s
    decreases |s|
  {
    if |s| > 0 {
      var st' := After(s, st);
      assert !Glued(s, st);
      assert st' == InRun ==> |s| == 1 || s[1] != '-' by {
        assert |s| > 1 && IsDigit(s[0]) ==> s[1] != '-';
      }
      forall i | 0 <= i < |s[1..]| - 1 ensures !(IsDigit(s[1..][i]) && s[1..][i + 1] == '-') {
        assert s[1..][i] == s[i + 1] && s[1..][i + 1] == s[i + 2];
      }
      RespaceKeepsExponents(s[1..], st');
      calc {
        Respace(s, st);
        [s[0]] + Respace(s[1..], st');
        [s[0]] + s[1..];
        { assert s == [s[0]] + s[1..]; }
        s;
      }
    }
  }

  /** A run of digits is copied, and leaves the scan inside a run (or inside the run of a match). */
  lemma {:induction false} RespaceDigits(a: string, t: string, st: MinusScan)
    requires |a| > 0 && forall i :: 0 <= i < |a| ==> IsDigit(a[i])
    ensures Respace(a + t, st) == a + Respace(t, if st == Matched then Matched else InRun)
    decreases |a|
  {
    var st' := if st == Matched then Matched else InRun;
    var s := a + t;
    assert s[0] == a[0] && s[1..] == a[1..] + t;
    assert !Glued(s, st) && After(s, st) == st';
    assert Respace(s, st) == [a[0]] + Respace(a[1..] + t, st');
    if |a| == 1 {
      assert a[1..] + t == t && a == [a[0]];
    } else {
      RespaceDigits(a[1..], t, st');
      assert [a[0]] + (a[1..] + Respace(t, st')) == a + Respace(t, st');
    }
  }

  /**
   * Two digit runs glued by a minus sign are split in two: `10-5` becomes
   * `10 -5`, and the scan goes on after the second run.
   */
  lemma GluedPairIsSplit(a: string, b: string, t: string)
    requires |a| > 0 && |b| > 0
    requires forall i :: 0 <= i < |a| ==> IsDigit(a[i])
    requires forall i :: 0 <= i < |b| ==> IsDigit(b[i])
    ensures SpaceGluedMinus(a + "-" + b + t) == a + " -" + b + Respace(t, Matched)
  {
    var s := a + "-" + b + t;
    assert s == a + ("-" + b + t);
    RespaceDigits(a, "-" + b + t, Outside);
    var r := "-" + b + t;
    assert r[1..] == b + t;
    RespaceDigits(b, t, Matched);
  }

  /**
   * Matches do not overlap: in `1-2-3` only the first minus sign gets its
   * space, so the text splits into `1` and `-2-3`.
   */
  lemma ChainedMinusKeepsSecondGlued()
    ensures SpaceGluedMinus("1-2-3") == "1 -2-3"
  {
    GluedPairIsSplit("1", "2", "-3");
    assert "1" + "-" + "2" + "-3" == "1-2-3";
    assert Respace("3", Outside) == "3";
    assert Respace("-3", Matched) == "-3";
  }

  /** Length of the run of non-separators `s` starts with. */
  function RunLength(s: string): (n: nat)
    ensures n <= |s|
    ensures forall i :: 0 <= i < n ==> !IsSeparator(s[i])
    ensures n == |s| || IsSeparator(s[n])
  {
    if |s| > 0 && !IsSeparator(s[0]) then 1 + RunLength(s[1..]) else 0
  }

  /**
   * `s.split(/[\s,;]+/).filter(p => p !== "")`: the maximal runs of
   * characters other than separators, in order.
   */
  function Tokens(s: string): (r: seq<string>)
    ensures forall i :: 0 <= i < |r| ==> |r[i]| > 0
    ensures forall i, c :: 0 <= i < |r| && c in r[i] ==> !IsSeparator(c) && c in s
    decreases |s|
  {
    if |s| == 0 then []
    else if IsSeparator(s[0]) then
      SliceChars(s, 1);
      Tokens(s[1..])
    else
      var n := RunLength(s);
      SliceChars(s, n);
      [s[..n]] + Tokens(s[n..])
  }

  /** Both sides of a cut hold only characters of the whole. */
  lemma SliceChars(s: string, n: nat)
    requires n <= |s|
    ensures forall c :: c in s[..n] || c in s[n..] ==> c in s
  {
    assert s == s[..n] + s[n..];
  }

  lemma {:induction false} RunLengthOfWordThen(w: string, t: string)
    requires forall i :: 0 <= i < |w| ==> !IsSeparator(w[i])
    requires |t| == 0 || IsSeparator(t[0])
    ensures RunLength(w + t) == |w|
    decreases |w|
  {
    if |w| > 0 {
      RunLengthOfWordThen(w[1..], t);
      assert (w + t)[1..] == w[1..] + t;
    } else {
      assert w + t == t;
    }
  }

  /** Splitting recovers any list of non-empty separator-free words joined by single spaces. */
  lemma {:induction false} TokensOfJoin(ws: seq<string>)
    requires forall i :: 0 <= i < |ws| ==> |ws[i]| > 0
    requires forall i, j :: 0 <= i < |ws| && 0 <= j < |ws[i]| ==> !IsSeparator(ws[i][j])
    ensures Tokens(Join(ws, ' ')) == ws
    decreases |ws|
  {
    if |ws| == 1 {
      var w := ws[0];
      RunLengthOfWordThen(w, "");
      assert w + "" == w;
      assert w[|w|..] == "";
    } else if |ws| > 1 {
      var w, j := ws[0], Join(ws[1..], ' ');
      var s := w + " " + j;
      assert Join(ws, ' ') == s;
      RunLengthOfWordThen(w, " " + j);
      assert s == w + (" " + j);
      assert s[|w|..] == " " + j;
      assert (" " + j)[1..] == j;
      TokensOfJoin(ws[1..]);
      assert Tokens(s) == [w] + ws[1..];
    }
  }

  /** The words of `ws` written one after the other. */
  function Concat(ws: seq<string>): string
  {
    if |ws| == 0 then "" else ws[0] + Concat(ws[1..])
  }

  /** `s` with every separator character removed. */
  function WithoutSeparators(s: string): (r: string)
    ensures |r| <= |s|
    ensures forall c :: c in r ==> !IsSeparator(c)
  {
    if |s| == 0 then ""
    else
      var t := WithoutSeparators(s[1..]);
      if IsSeparator(s[0]) then t else [s[0]] + t
  }

  /** A separator-free head of `s` survives the removal of separators as it is. */
  lemma {:induction false} WithoutSeparatorsKeepsRun(s: string, n: nat)
    requires n <= |s|
    requires forall i :: 0 <= i < n ==> !IsSeparator(s[i])
    ensures WithoutSeparators(s) == s[..n] + WithoutSeparators(s[n..])
    decreases n
  {
    if n > 0 {
      var t := s[1..];
      WithoutSeparatorsKeepsRun(t, n - 1);
      assert t[n - 1..] == s[n..];
      assert WithoutSeparators(s) == [s[0]] + WithoutSeparators(t);
      assert s[..n] == [s[0]] + t[..n - 1];
    }
  }

  /**
   * Splitting loses no character but the separators: the tokens written one
   * after the other give the text with its separators removed.
   */
  lemma {:induction false} TokensCoverText(s: string)
    ensures Concat(Tokens(s)) == WithoutSeparators(s)
    decreases |s|
  {
    if |s| > 0 {
      if IsSeparator(s[0]) {
        TokensCoverText(s[1..]);
      } else {
        var n := RunLength(s);
        assert Tokens(s) == [s[..n]] + Tokens(s[n..]);
        assert ([s[..n]] + Tokens(s[n..]))[1..] == Tokens(s[n..]);
        TokensCoverText(s[n..]);
        WithoutSeparatorsKeepsRun(s, n);
      }
    }
  }

  /**
   * `handleRounding` for one token: a token with a dot and no `e` keeps at
   * most two characters after its first dot; any other token is unchanged.
   */
  function HandleRounding(p: string): (r: string)
    ensures r <= p
    ensures ('.' !in p || 'e' in p) ==> r == p
    ensures '.' in p && 'e' !in p ==>
      IndexOf(r, '.') == IndexOf(p, '.') && |r| <= IndexOf(p, '.') + 3
      && (|r| < |p| ==> |r| == IndexOf(p, '.') + 3)
  {
    var idx := IndexOf(p, '.');
    if idx == -1 || 'e' in p then p
    else
      var r := p[..if idx + 3 <= |p| then idx + 3 else |p|];
      assert r[..idx] == p[..idx];
      r
  }

  /** Rounding a rounded token changes nothing. */
  lemma HandleRoundingIdempotent(p: string)
    ensures HandleRounding(HandleRounding(p)) == HandleRounding(p)
  {
    var r := HandleRounding(p);
    forall i | 0 <= i < |r| ensures r[i] == p[i] {
    }
  }

  /** A rounded token is not empty when the token is not, and holds only characters of the token. */
  lemma RoundingKeepsCharacters(p: string)
    ensures |p| > 0 ==> |HandleRounding(p)| > 0
    ensures forall c :: c in HandleRounding(p) ==> c in p
  {
    var r := HandleRounding(p);
    if '.' in p && 'e' !in p {
      assert |r| > IndexOf(p, '.');
    }
    forall c | c in r ensures c in p {
      var i :| 0 <= i < |r| && r[i] == c;
      assert p[i] == c;
    }
  }

  /** The argument strings of the command at the head of `p`: rewritten, split and rounded. */
  function ArgumentTokens(p: string): seq<string>
  {
    RoundAll(Tokens(SpaceGluedMinus(ArgumentText(p))))
  }

  /** `handleRounding(parts)`: every token rounded. */
  function RoundAll(parts: seq<string>): (r: seq<string>)
    ensures |r| == |parts|
    ensures forall i :: 0 <= i < |parts| ==> r[i] == HandleRounding(parts[i])
  {
    if |parts| == 0 then [] else [HandleRounding(parts[0])] + RoundAll(parts[1..])
  }

  /** `parts.map(parseFloat)` */
  function ReadAll(read: NumberReader, parts: seq<string>): (r: seq<Num>)
    ensures |r| == |parts|
    ensures forall i :: 0 <= i < |parts| ==> r[i] == read(parts[i])
  {
    if |parts| == 0 then [] else [read(parts[0])] + ReadAll(read, parts[1..])
  }

  /** What `getParams` returns: where the next command starts (or -1), and the numbers read. */
  datatype Params = Params(next: int, nums: seq<Num>)

  /**
   * `getParams(p)`: where the next command starts (or -1) and the numbers
   * read from the arguments of the command at the head of `p`.
   */
  function GetParams(read: NumberReader, p: string): (r: Params)
    ensures r.next == -1 || 1 <= r.next < |p|
  {
    Params(NextCommand(p), ReadAll(read, ArgumentTokens(p)))
  }

  /** The tokens of the rewritten argument text hold no separators and no characters foreign to the text. */
  lemma TokenCharacters(text: string)
    ensures forall i, c :: 0 <= i < |Tokens(SpaceGluedMinus(text))| && c in Tokens(SpaceGluedMinus(text))[i] ==>
      !IsSeparator(c) && c in text
  {
    var spaced := SpaceGluedMinus(text);
    RespaceChars(text, Outside);
    assert forall c :: c in spaced ==> c in text || c == ' ';
  }

  /**
   * The arguments of a command come only from the text before the next
   * command letter: every token is non-empty and holds neither separators nor
   * command letters, and one number is read per token.
   */
  lemma ArgumentsStopAtNextCommand(read: NumberReader, p: string)
    ensures GetParams(read, p).next == NextCommand(p)
    ensures |GetParams(read, p).nums| == |ArgumentTokens(p)|
    ensures forall i :: 0 <= i < |ArgumentTokens(p)| ==>
      GetParams(read, p).nums[i] == read(ArgumentTokens(p)[i])
    ensures forall i :: 0 <= i < |ArgumentTokens(p)| ==> |ArgumentTokens(p)[i]| > 0
    ensures forall i, c :: 0 <= i < |ArgumentTokens(p)| && c in ArgumentTokens(p)[i] ==>
      !IsSeparator(c) && !IsCommand(c)
  {
    var text := ArgumentText(p);
    var parts := Tokens(SpaceGluedMinus(text));
    var tokens := ArgumentTokens(p);
    TokenCharacters(text);
    forall i | 0 <= i < |parts|
      ensures |tokens[i]| > 0
      ensures forall c :: c in tokens[i] ==> !IsSeparator(c) && !IsCommand(c)
    {
      RoundingKeepsCharacters(parts[i]);
      assert tokens[i] == HandleRounding(parts[i]);
      forall c | c in tokens[i] ensures !IsSeparator(c) && !IsCommand(c) {
        assert c in parts[i];
        assert c in text;
      }
    }
  }

  // ------------------------------------------------------------ the scan

  /** The fields a scan updates: `pathString`, `counter`, `currPoint`, `initPoint` and `allPoints`. */
  datatype Scan = Scan(rest: string, counter: int, curr: Point, init: Point, out: seq<Point>)

  /** The state `parse(input)` starts from. */
  function Start(input: string): Scan
  {
    Scan(input, 0, Unset, Unset, [])
  }

  /** `updateOne` */
  function DropOne(s: Scan): Scan
    requires |s.rest| > 0
  {
    s.(rest := s.rest[1..], counter := s.counter + 1)
  }

  /** `updateVars(idx)`: -1 consumes everything, otherwise `idx` characters. */
  function Consume(s: Scan, idx: int): Scan
    requires idx == -1 || 0 <= idx <= |s.rest|
  {
    if idx == -1 then s.(counter := s.counter + |s.rest|, rest := "")
    else s.(counter := s.counter + idx, rest := s.rest[idx..])
  }

  /** Every way of consuming input keeps `counter + |pathString|`, and consumes something unless told to consume nothing. */
  lemma ConsumeKeepsTotal(s: Scan, idx: int)
    requires idx == -1 || 0 <= idx <= |s.rest|
    ensures Consume(s, idx).counter + |Consume(s, idx).rest| == s.counter + |s.rest|
    ensures idx == -1 ==> Consume(s, idx).rest == ""
    ensures idx >= 0 ==> |Consume(s, idx).rest| == |s.rest| - idx
    ensures |s.rest| > 0 ==> DropOne(s).counter + |DropOne(s).rest| == s.counter + |s.rest|
  {
  }

  /** `points[i]`, which is undefined past the end. */
  function Arg(pts: seq<Num>, i: nat): Num
  {
    if i < |pts| then pts[i] else NaN
  }

  /** The new current point for arguments `(x, y)` of command `c`: relative for lower case, absolute otherwise. */
  function Advance(curr: Point, c: char, x: Num, y: Num): Point
  {
    if IsLowerCase(c) then Point(Add(curr.x, x), Add(curr.y, y)) else Point(x, y)
  }

  /**
   * `processPoints(start, c, pts, step)` from current point `curr`: the last
   * current point and the points emitted, one per index start, start+step, ...
   * below |pts|.
   */
  function Emitted(start: nat, c: char, pts: seq<Num>, step: nat, curr: Point): (Point, seq<Point>)
    requires step > 0
    decreases if start < |pts| then |pts| - start else 0
  {
    if start >= |pts| then (curr, [])
    else
      var next := Advance(curr, c, pts[start], Arg(pts, start + 1));
      var rest := Emitted(start + step, c, pts, step, next);
      (rest.0, [next] + rest.1)
  }

  lemma GroupOffset(start: nat, step: nat, k: nat)
    requires k >= 1
    ensures start + k * step == (start + step) + (k - 1) * step
  {
  }

  /**
   * `processPoints` emits exactly one point per argument group that starts
   * below |pts|, the k-th from the arguments at `start + k * step` and the one
   * after it, chained from the previous point; the last one becomes the
   * current point.
   */
  lemma {:induction false} EmittedOnePerGroup(start: nat, c: char, pts: seq<Num>, step: nat, curr: Point)
    requires step > 0
    ensures var e := Emitted(start, c, pts, step, curr).1;
      && (forall k :: 0 <= k < |e| ==> start + k * step < |pts|)
      && start + |e| * step >= |pts|
      && (forall k :: 0 <= k < |e| ==>
            e[k] == Advance(if k == 0 then curr else e[k - 1], c, pts[start + k * step], Arg(pts, start + k * step + 1)))
      && Emitted(start, c, pts, step, curr).0 == (if |e| == 0 then curr else e[|e| - 1])
    decreases if start < |pts| then |pts| - start else 0
  {
    if start < |pts| {
      var next := Advance(curr, c, pts[start], Arg(pts, start + 1));
      EmittedOnePerGroup(start + step, c, pts, step, next);
      var more := Emitted(start + step, c, pts, step, next).1;
      var e := Emitted(start, c, pts, step, curr).1;
      assert e == [next] + more;
      forall k | 1 <= k < |e|
        ensures start + k * step < |pts|
        ensures e[k] == Advance(e[k - 1], c, pts[start + k * step], Arg(pts, start + k * step + 1))
      {
        GroupOffset(start, step, k);
        assert e[k] == more[k - 1];
        if k >= 2 {
          GroupOffset(start + step, step, k - 1);
        }
      }
      GroupOffset(start, step, |e|);
    }
  }

  /** One point per argument group that starts below |pts|, and no more. */
  lemma EmittedCount(start: nat, c: char, pts: seq<Num>, step: nat, curr: Point)
    requires step > 0
    ensures var e := Emitted(start, c, pts, step, curr).1;
      && (forall k :: 0 <= k < |e| ==> start + k * step < |pts|)
      && start + |e| * step >= |pts|
  {
    EmittedOnePerGroup(start, c, pts, step, curr);
  }

  /** For an upper-case command the k-th emitted point is exactly the end point of the k-th argument group. */
  lemma AbsoluteKeepsEndPoints(start: nat, c: char, pts: seq<Num>, step: nat, curr: Point)
    requires step > 0 && !IsLowerCase(c)
    ensures var e := Emitted(start, c, pts, step, curr).1;
      forall k :: 0 <= k < |e| ==>
        start + k * step < |pts| && e[k] == Point(pts[start + k * step], Arg(pts, start + k * step + 1))
  {
    EmittedOnePerGroup(start, c, pts, step, curr);
    var e := Emitted(start, c, pts, step, curr).1;
    forall k | 0 <= k < |e|
      ensures start + k * step < |pts| && e[k] == Point(pts[start + k * step], Arg(pts, start + k * step + 1))
    {
      var prev := if k == 0 then curr else e[k - 1];
      assert e[k] == Advance(prev, c, pts[start + k * step], Arg(pts, start + k * step + 1));
    }
  }

  /**
   * The points `processPoints` appends to an output, read back from that
   * output: one per argument group, chained from `curr`, the last one being
   * the new current point.
   */
  lemma EmittedAfter(prefix: seq<Point>, out: seq<Point>, start: nat, c: char, pts: seq<Num>, step: nat, curr: Point)
    requires step > 0 && out == prefix + Emitted(start, c, pts, step, curr).1
    ensures var em := Emitted(start, c, pts, step, curr);
      var e := out[|prefix|..];
      && out[..|prefix|] == prefix
      && (forall k :: 0 <= k < |e| ==> start + k * step < |pts|)
      && start + |e| * step >= |pts|
      && (forall k :: 0 <= k < |e| ==>
            e[k] == Advance(if k == 0 then curr else e[k - 1], c, pts[start + k * step], Arg(pts, start + k * step + 1)))
      && em.0 == (if |e| == 0 then curr else e[|e| - 1])
      && (!IsLowerCase(c) ==>
            forall k :: 0 <= k < |e| ==>
              start + k * step < |pts| && e[k] == Point(pts[start + k * step], Arg(pts, start + k * step + 1)))
  {
    var em := Emitted(start, c, pts, step, curr);
    assert out[|prefix|..] == em.1;
    assert out[..|prefix|] == prefix;
    EmittedOnePerGroup(start, c, pts, step, curr);
    if !IsLowerCase(c) {
      AbsoluteKeepsEndPoints(start, c, pts, step, curr);
    }
  }

  /** The parameters fit the text they were read from: the next command lies after the head. */
  predicate Fits(ps: Params, s: Scan)
  {
    ps.next == -1 || 1 <= ps.next <= |s.rest|
  }

  /** `handleMs`, given what `getParams` returned. */
  function MoveToStep(s: Scan, ps: Params): Scan
    requires |s.rest| > 0 && Fits(ps, s)
  {
    var pts := ps.nums;
    var c := s.rest[0];
    if |pts| >= 2 then
      var first := if s.counter == 0 || c == 'M' then Point(pts[0], pts[1])
                   else Point(Add(s.curr.x, pts[0]), Add(s.curr.y, pts[1]));
      var lines := Emitted(2, c, pts, 2, first);
      Consume(s.(init := first, curr := lines.0, out := s.out + [first] + lines.1), ps.next)
    else Consume(s, ps.next)
  }

  /** `handleLs`, given what `getParams` returned. */
  function LineToStep(s: Scan, ps: Params): Scan
    requires |s.rest| > 0 && Fits(ps, s)
  {
    var lines := Emitted(0, s.rest[0], ps.nums, 2, s.curr);
    Consume(s.(curr := lines.0, out := s.out + lines.1), ps.next)
  }

  /** `handleHs`, given what `getParams` returned. */
  function HorizontalStep(s: Scan, ps: Params): Scan
    requires |s.rest| > 0 && Fits(ps, s)
  {
    var x := if s.rest[0] == 'h' then Add(s.curr.x, Arg(ps.nums, 0)) else Arg(ps.nums, 0);
    var p := Point(x, s.curr.y);
    Consume(s.(curr := p, out := s.out + [p]), ps.next)
  }

  /** `handleVs`, given what `getParams` returned. */
  function VerticalStep(s: Scan, ps: Params): Scan
    requires |s.rest| > 0 && Fits(ps, s)
  {
    if |ps.nums| == 1 then
      var y := if s.rest[0] == 'v' then Add(s.curr.y, ps.nums[0]) else ps.nums[0];
      var p := Point(s.curr.x, y);
      Consume(s.(curr := p, out := s.out + [p]), ps.next)
    else s
  }

  /** `handleZs` */
  function CloseStep(s: Scan): Scan
    requires |s.rest| > 0
  {
    Consume(s.(curr := s.init, out := s.out + [s.init]), 1)
  }

  /** `handleCurves`, given what `getParams` returned. */
  function CurveStep(s: Scan, ps: Params): Scan
    requires |s.rest| > 0 && IsCurveLetter(ToLower(s.rest[0])) && Fits(ps, s)
  {
    var c := s.rest[0];
    var param := CurveParams(ToLower(c));
    var ends := Emitted(param.start, c, ps.nums, param.step, s.curr);
    Consume(s.(curr := ends.0, out := s.out + ends.1), ps.next)
  }

  /** `skipParams`: jump to the next command letter, or to the end. */
  function SkipStep(s: Scan): Scan
  {
    Consume(s, NextCommand(s.rest))
  }

  /** The one situation in which an iteration changes nothing: a vertical lineto not followed by exactly one number. */
  predicate Stalls(s: Scan, ps: Params)
    requires |s.rest| > 0
  {
    ToLower(s.rest[0]) == 'v' && |ps.nums| != 1
  }

  /**
   * The body of the loop in `parse`, given what `getParams` returns for the
   * text left: every iteration keeps `counter + |pathString|`, only appends
   * points, and consumes at least one character unless it stalls, in which
   * case it changes nothing.
   */
  function Run(s: Scan, ps: Params): (r: Scan)
    requires |s.rest| > 0 && Fits(ps, s)
    ensures r.counter + |r.rest| == s.counter + |s.rest|
    ensures s.out <= r.out
    ensures r == s <==> Stalls(s, ps)
    ensures r != s ==> |r.rest| < |s.rest|
  {
    var c := s.rest[0];
    if IsAlpha(c) then
      var lc := ToLower(c);
      if !IsCommandLetter(lc) then SkipStep(s)
      else if lc == 'm' then MoveToStep(s, ps)
      else if lc == 'z' then CloseStep(s)
      else if lc == 'l' then LineToStep(s, ps)
      else if lc == 'h' then HorizontalStep(s, ps)
      else if lc == 'v' then VerticalStep(s, ps)
      else CurveStep(s, ps)
    else DropOne(s)
  }

  /**
   * How the loop obtains the parameters of the command at the head of the
   * text left; `parse` uses `getParams`, as `ParamsOf` says.
   */
  type ParamReader = string -> Params

  /** The reader `parse` uses: `getParams` with `parseFloat` as `read`. */
  function ParamsOf(read: NumberReader): ParamReader
  {
    p => GetParams(read, p)
  }

  /** A parameter reader never points the next command at the head or past the end. */
  ghost predicate ValidReader(params: ParamReader)
  {
    forall p :: params(p).next == -1 || 1 <= params(p).next < |p|
  }

  lemma ParamsOfIsGetParams(read: NumberReader)
    ensures forall p :: ParamsOf(read)(p) == GetParams(read, p)
  {
  }

  lemma GetParamsFits(read: NumberReader)
    ensures forall p :: GetParams(read, p).next == -1 || 1 <= GetParams(read, p).next < |p|
  {
  }

  /** `getParams` is a valid parameter reader. */
  lemma GetParamsIsValid(read: NumberReader)
    ensures ValidReader(ParamsOf(read))
  {
    ParamsOfIsGetParams(read);
    GetParamsFits(read);
  }

  /** One iteration of the loop in `parse`. */
  function Step(params: ParamReader, s: Scan): Scan
    requires |s.rest| > 0 && ValidReader(params)
  {
    Run(s, params(s.rest))
  }

  /** An iteration that changes nothing. */
  predicate IsStall(params: ParamReader, s: Scan)
    requires |s.rest| > 0
  {
    Stalls(s, params(s.rest))
  }

  /** The loop of `parse` with `fuel` iterations left before the guard stops it. */
  function Loop(params: ParamReader, s: Scan, fuel: nat): Scan
    requires ValidReader(params)
    decreases fuel
  {
    if fuel == 0 || |s.rest| == 0 then s else Loop(params, Step(params, s), fuel - 1)
  }

  /** One turn of the loop: with input left and fuel left, the loop goes on from the next state. */
  lemma LoopUnfolds(params: ParamReader, s: Scan, fuel: nat)
    requires ValidReader(params) && |s.rest| > 0 && fuel > 0
    ensures Loop(params, s, fuel) == Loop(params, Step(params, s), fuel - 1)
    ensures Loop(params, Step(params, s), 0) == Step(params, s)
  {
  }

  /** What `parse(input)` returns: the guard allows |input| + 1 iterations. */
  function Points(params: ParamReader, input: string): seq<Point>
    requires ValidReader(params)
  {
    Loop(params, Start(input), |input| + 1).out
  }

  // ------------------------------------------------------------ properties of the scan

  /** A stalled scan stays where it is: no further point is ever emitted. */
  lemma {:induction false} StallIsFinal(params: ParamReader, s: Scan, fuel: nat)
    requires ValidReader(params) && |s.rest| > 0 && IsStall(params, s)
    ensures Loop(params, s, fuel) == s
    decreases fuel
  {
    if fuel > 0 {
      StallIsFinal(params, s, fuel - 1);
    }
  }

  /**
   * Given more iterations than characters left, the loop consumes the whole
   * input or stops at a stall; points are only appended, and
   * `counter + |pathString|` never changes.
   */
  lemma LoopEnds(params: ParamReader, s: Scan, fuel: nat)
    requires ValidReader(params) && fuel > |s.rest|
    ensures var r := Loop(params, s, fuel);
      && (|r.rest| == 0 || IsStall(params, r))
      && s.out <= r.out
      && r.counter + |r.rest| == s.counter + |s.rest|
  {
    LoopStops(params, s, fuel);
    LoopAppends(params, s, fuel);
    LoopKeepsTotal(params, s, fuel);
  }

  /** With more iterations than characters left, the loop ends with no input left or at a stall. */
  lemma {:induction false} LoopStops(params: ParamReader, s: Scan, fuel: nat)
    requires ValidReader(params) && fuel > |s.rest|
    ensures var r := Loop(params, s, fuel); |r.rest| == 0 || IsStall(params, r)
    decreases fuel
  {
    if |s.rest| == 0 {
      assert Loop(params, s, fuel) == s;
    } else if IsStall(params, s) {
      StallIsFinal(params, s, fuel);
    } else {
      LoopUnfolds(params, s, fuel);
      StepProgresses(params, s);
      LoopStops(params, Step(params, s), fuel - 1);
    }
  }

  /** The loop only appends points. */
  lemma {:induction false} LoopAppends(params: ParamReader, s: Scan, fuel: nat)
    requires ValidReader(params)
    ensures s.out <= Loop(params, s, fuel).out
    decreases fuel
  {
    if fuel > 0 && |s.rest| > 0 {
      var s' := Step(params, s);
      LoopUnfolds(params, s, fuel);
      LoopAppends(params, s', fuel - 1);
      PrefixTransitive(s.out, s'.out, Loop(params, s', fuel - 1).out);
    }
  }

  /** The loop never changes `counter + |pathString|`. */
  lemma {:induction false} LoopKeepsTotal(params: ParamReader, s: Scan, fuel: nat)
    requires ValidReader(params)
    ensures var r := Loop(params, s, fuel); r.counter + |r.rest| == s.counter + |s.rest|
    decreases fuel
  {
    if fuel > 0 && |s.rest| > 0 {
      LoopUnfolds(params, s, fuel);
      LoopKeepsTotal(params, Step(params, s), fuel - 1);
    }
  }

  lemma PrefixTransitive<T>(a: seq<T>, b: seq<T>, c: seq<T>)
    requires a <= b && b <= c
    ensures a <= c
  {
    assert a == b[..|a|] && b == c[..|b|];
  }

  /** An iteration that does not stall consumes input, keeps the total and only appends points. */
  lemma StepProgresses(params: ParamReader, s: Scan)
    requires ValidReader(params) && |s.rest| > 0 && !IsStall(params, s)
    ensures var s' := Step(params, s);
      && |s'.rest| < |s.rest|
      && s'.counter + |s'.rest| == s.counter + |s.rest|
      && s.out <= s'.out
  {
  }

  /**
   * `parse` always ends: either it has read the whole input, with `counter`
   * equal to the input length, or it stopped at a vertical lineto that is not
   * followed by exactly one number, after which nothing was emitted.
   */
  lemma ParseEnds(params: ParamReader, input: string)
    requires ValidReader(params)
    ensures var r := Loop(params, Start(input), |input| + 1);
      && Points(params, input) == r.out
      && r.counter + |r.rest| == |input|
      && (|r.rest| == 0 || IsStall(params, r))
  {
    LoopEnds(params, Start(input), |input| + 1);
  }

  /**
   * Which handler an iteration runs: a letter that is a command runs the
   * handler of its lower-case form; any other letter skips its parameters;
   * any other character is dropped.
   */
  lemma Dispatch(s: Scan, ps: Params)
    requires |s.rest| > 0 && Fits(ps, s)
    ensures var c := s.rest[0];
      && (!IsAlpha(c) ==> Run(s, ps) == DropOne(s))
      && (IsAlpha(c) && !IsCommand(c) ==> Run(s, ps) == SkipStep(s))
      && (ToLower(c) == 'm' ==> Run(s, ps) == MoveToStep(s, ps))
      && (ToLower(c) == 'z' ==> Run(s, ps) == CloseStep(s))
      && (ToLower(c) == 'l' ==> Run(s, ps) == LineToStep(s, ps))
      && (ToLower(c) == 'h' ==> Run(s, ps) == HorizontalStep(s, ps))
      && (ToLower(c) == 'v' ==> Run(s, ps) == VerticalStep(s, ps))
      && (IsCurveLetter(ToLower(c)) ==> Run(s, ps) == CurveStep(s, ps))
  {
    var c := s.rest[0];
    assert IsCommandLetter(ToLower(c)) ==> IsAlpha(c);
  }

  /**
   * moveto: with at least two numbers the first pair is absolute exactly when
   * nothing precedes the command or the letter is `M`; it becomes the subpath
   * start and is emitted, followed by one implicit lineto point per further
   * pair (see MoveToLines); the last point emitted is the current point.
   * With fewer numbers nothing is emitted. In both cases the arguments are
   * consumed.
   */
  lemma MoveTo(s: Scan, ps: Params)
    requires |s.rest| > 0 && Fits(ps, s)
    ensures var pts, r := ps.nums, MoveToStep(s, ps);
      && r.rest == (if ps.next == -1 then "" else s.rest[ps.next..])
      && (|pts| < 2 ==> r.out == s.out && r.curr == s.curr && r.init == s.init)
      && (|pts| >= 2 ==>
            && r.init == (if s.counter == 0 || s.rest[0] == 'M' then Point(pts[0], pts[1])
                          else Point(Add(s.curr.x, pts[0]), Add(s.curr.y, pts[1])))
            && |r.out| == |s.out| + 1 + (|pts| - 1) / 2
            && r.out[..|s.out| + 1] == s.out + [r.init]
            && r.curr == r.out[|r.out| - 1])
  {
    var pts := ps.nums;
    if |pts| >= 2 {
      var c := s.rest[0];
      var first := if s.counter == 0 || c == 'M' then Point(pts[0], pts[1])
                   else Point(Add(s.curr.x, pts[0]), Add(s.curr.y, pts[1]));
      EmittedOnePerGroup(2, c, pts, 2, first);
      var e := Emitted(2, c, pts, 2, first).1;
      assert |e| == (|pts| - 1) / 2 by {
        if |e| > 0 {
          assert 2 + (|e| - 1) * 2 < |pts|;
        }
      }
      var r := MoveToStep(s, ps);
      assert r.out == s.out + [first] + e;
      assert r.out[..|s.out| + 1] == s.out + [first];
    }
  }

  /**
   * The implicit linetos of a moveto: each point after the first is the
   * point before it advanced by the next pair, with the moveto's own case.
   */
  lemma MoveToLines(s: Scan, ps: Params)
    requires |s.rest| > 0 && Fits(ps, s) && |ps.nums| >= 2
    ensures var pts, r := ps.nums, MoveToStep(s, ps);
      forall k :: 0 <= k < |r.out| - |s.out| - 1 ==>
        2 + 2 * k < |pts|
        && r.out[|s.out| + 1 + k] == Advance(r.out[|s.out| + k], s.rest[0], pts[2 + 2 * k], Arg(pts, 3 + 2 * k))
  {
    var pts, c := ps.nums, s.rest[0];
    var first := if s.counter == 0 || c == 'M' then Point(pts[0], pts[1])
                 else Point(Add(s.curr.x, pts[0]), Add(s.curr.y, pts[1]));
    var e := Emitted(2, c, pts, 2, first).1;
    var r := MoveToStep(s, ps);
    var prefix := s.out + [first];
    assert r.out == prefix + e;
    EmittedAfter(prefix, r.out, 2, c, pts, 2, first);
    forall k | 0 <= k < |r.out| - |s.out| - 1
      ensures 2 + 2 * k < |pts|
      ensures r.out[|s.out| + 1 + k] == Advance(r.out[|s.out| + k], c, pts[2 + 2 * k], Arg(pts, 3 + 2 * k))
    {
      assert r.out[|s.out| + 1 + k] == e[k];
      assert r.out[|s.out| + k] == if k == 0 then first else e[k - 1];
      assert 2 + k * 2 == 2 + 2 * k;
    }
  }

  /** closepath: the current point returns to the subpath start, which is emitted; exactly one character is consumed. */
  lemma Close(s: Scan)
    requires |s.rest| > 0
    ensures CloseStep(s) == s.(rest := s.rest[1..], counter := s.counter + 1, curr := s.init, out := s.out + [s.init])
  {
  }

  /**
   * lineto: one point per pair of numbers, each the previous point advanced
   * by that pair (moved by it for `l`, the pair itself for `L`); the last
   * becomes the current point, the subpath start stays, and the arguments
   * are consumed.
   */
  lemma LineTo(s: Scan, ps: Params)
    requires |s.rest| > 0 && Fits(ps, s)
    ensures var pts, r := ps.nums, LineToStep(s, ps);
      var e := r.out[|s.out|..];
      && r.out[..|s.out|] == s.out
      && r.rest == (if ps.next == -1 then "" else s.rest[ps.next..])
      && r.init == s.init
      && (forall k :: 0 <= k < |e| ==> 2 * k < |pts|)
      && 2 * |e| >= |pts|
      && (forall k :: 0 <= k < |e| ==>
            e[k] == Advance(if k == 0 then s.curr else e[k - 1], s.rest[0], pts[2 * k], Arg(pts, 2 * k + 1)))
      && r.curr == (if |e| == 0 then s.curr else e[|e| - 1])
  {
    var pts, c := ps.nums, s.rest[0];
    var lines := Emitted(0, c, pts, 2, s.curr);
    var e := lines.1;
    var r := LineToStep(s, ps);
    assert r.out == s.out + e && r.curr == lines.0 && r.init == s.init;
    assert r.out[|s.out|..] == e;
    assert r.out[..|s.out|] == s.out;
    EmittedOnePerGroup(0, c, pts, 2, s.curr);
    forall k | 0 <= k < |e|
      ensures 2 * k < |pts|
      ensures e[k] == Advance(if k == 0 then s.curr else e[k - 1], c, pts[2 * k], Arg(pts, 2 * k + 1))
    {
      assert 0 + k * 2 == 2 * k;
    }
    assert 0 + |e| * 2 == 2 * |e|;
  }

  /**
   * Horizontal lineto changes only x, using only the first number (undefined
   * when there is none), and emits exactly one point.
   */
  lemma Horizontal(s: Scan, ps: Params)
    requires |s.rest| > 0 && Fits(ps, s)
    ensures var r := HorizontalStep(s, ps);
      && r.curr.y == s.curr.y
      && r.curr.x == (if s.rest[0] == 'h' then Add(s.curr.x, Arg(ps.nums, 0)) else Arg(ps.nums, 0))
      && r.out == s.out + [r.curr]
      && r.init == s.init
      && r.rest == (if ps.next == -1 then "" else s.rest[ps.next..])
  {
  }

  /**
   * Vertical lineto changes only y, and only when exactly one number follows;
   * otherwise the iteration changes nothing at all.
   */
  lemma Vertical(s: Scan, ps: Params)
    requires |s.rest| > 0 && Fits(ps, s)
    ensures var r := VerticalStep(s, ps);
      && (|ps.nums| == 1 ==>
            && r.curr == Point(s.curr.x, if s.rest[0] == 'v' then Add(s.curr.y, ps.nums[0]) else ps.nums[0])
            && r.out == s.out + [r.curr]
            && r.init == s.init
            && r.rest == (if ps.next == -1 then "" else s.rest[ps.next..])
            && |r.rest| < |s.rest|)
      && (|ps.nums| != 1 ==> r == s)
  {
  }

  /**
   * Curves and arcs emit one point per argument group, the group's end point
   * (at offset `start` of a group of `step` numbers), and nothing for the
   * control points: each point is the previous one advanced by the end-point
   * pair (moved by it for a lower-case letter, the pair itself otherwise),
   * and the last one becomes the current point.
   */
  lemma Curve(s: Scan, ps: Params)
    requires |s.rest| > 0 && IsCurveLetter(ToLower(s.rest[0])) && Fits(ps, s)
    ensures var pts, param, r := ps.nums, CurveParams(ToLower(s.rest[0])), CurveStep(s, ps);
      var e := r.out[|s.out|..];
      && r.out[..|s.out|] == s.out
      && (forall k :: 0 <= k < |e| ==> param.start + k * param.step < |pts|)
      && param.start + |e| * param.step >= |pts|
      && (forall k :: 0 <= k < |e| ==>
            e[k] == Advance(if k == 0 then s.curr else e[k - 1], s.rest[0],
                            pts[param.start + k * param.step], Arg(pts, param.start + k * param.step + 1)))
      && r.curr == (if |e| == 0 then s.curr else e[|e| - 1])
      && r.init == s.init
      && r.rest == (if ps.next == -1 then "" else s.rest[ps.next..])
  {
    CurveChain(s, ps);
  }

  /** The points `Curve` states, apart from the frame. */
  lemma CurveChain(s: Scan, ps: Params)
    requires |s.rest| > 0 && IsCurveLetter(ToLower(s.rest[0])) && Fits(ps, s)
    ensures var pts, param, r := ps.nums, CurveParams(ToLower(s.rest[0])), CurveStep(s, ps);
      var e := r.out[|s.out|..];
      && r.out[..|s.out|] == s.out
      && (forall k :: 0 <= k < |e| ==> param.start + k * param.step < |pts|)
      && param.start + |e| * param.step >= |pts|
      && (forall k :: 0 <= k < |e| ==>
            e[k] == Advance(if k == 0 then s.curr else e[k - 1], s.rest[0],
                            pts[param.start + k * param.step], Arg(pts, param.start + k * param.step + 1)))
      && r.curr == (if |e| == 0 then s.curr else e[|e| - 1])
  {
    var pts, c := ps.nums, s.rest[0];
    var param := CurveParams(ToLower(c));
    var ends := Emitted(param.start, c, pts, param.step, s.curr);
    var r := CurveStep(s, ps);
    assert r.out == s.out + ends.1 && r.curr == ends.0;
    EmittedAfter(s.out, r.out, param.start, c, pts, param.step, s.curr);
  }

  /** With an upper-case curve or arc letter the points emitted are the end-point arguments themselves. */
  lemma CurveAbsolute(s: Scan, ps: Params)
    requires |s.rest| > 0 && IsCurveLetter(ToLower(s.rest[0])) && !IsLowerCase(s.rest[0]) && Fits(ps, s)
    ensures var pts, param, r := ps.nums, CurveParams(ToLower(s.rest[0])), CurveStep(s, ps);
      var e := r.out[|s.out|..];
      forall k :: 0 <= k < |e| ==>
        param.start + k * param.step < |pts|
        && e[k] == Point(pts[param.start + k * param.step], Arg(pts, param.start + k * param.step + 1))
  {
    var pts, c := ps.nums, s.rest[0];
    var param := CurveParams(ToLower(c));
    var ends := Emitted(param.start, c, pts, param.step, s.curr);
    var r := CurveStep(s, ps);
    assert r.out == s.out + ends.1;
    EmittedAfter(s.out, r.out, param.start, c, pts, param.step, s.curr);
  }

  /**
   * A letter that is not a command skips to the next command letter (or to
   * the end) and any other character is dropped on its own; neither emits a
   * point or moves the current point.
   */
  lemma SkipsUnknown(s: Scan, ps: Params)
    requires |s.rest| > 0 && Fits(ps, s) && !IsCommand(s.rest[0])
    ensures var r := Run(s, ps);
      && r.out == s.out && r.curr == s.curr && r.init == s.init
      && (IsAlpha(s.rest[0]) ==>
            var idx := NextCommand(s.rest);
            r.rest == if idx == -1 then "" else s.rest[idx..])
      && (!IsAlpha(s.rest[0]) ==> r.rest == s.rest[1..])
  {
  }

  // ------------------------------------------------------------ the parser object

  class PathParser {
    /** `getParams`, with the number reader the parser was built with. */
    const params: ParamReader
    var pathString: string
    var counter: int
    var currPoint: Point
    var initPoint: Point
    var allPoints: seq<Point>

    /** The fields the scan updates, as one record. */
    function State(): Scan
      reads this
    {
      Scan(pathString, counter, currPoint, initPoint, allPoints)
    }

    ghost predicate Valid()
    {
      ValidReader(params)
    }

    constructor (read: NumberReader)
      ensures params == ParamsOf(read) && Valid() && State() == Start("")
    {
      params := ParamsOf(read);
      GetParamsIsValid(read);
      pathString := "";
      counter := 0;
      currPoint := Unset;
      initPoint := Unset;
      allPoints := [];
    }

    /** `parse(pathStr)`: the absolute points of the path. */
    method Parse(pathStr: string) returns (points: seq<Point>)
      requires Valid()
      modifies this
      ensures points == Points(params, pathStr)
      ensures counter + |pathString| == |pathStr|
    {
      allPoints := [];
      initPoint := Unset;
      currPoint := Unset;
      pathString := pathStr;
      counter := 0;
      var i := 0;
      while |pathString| > 0
        invariant 0 <= i <= |pathStr|
        invariant counter + |pathString| == |pathStr|
        invariant Loop(params, State(), |pathStr| + 1 - i) == Loop(params, Start(pathStr), |pathStr| + 1)
        decreases |pathStr| + 1 - i
      {
        ghost var before := State();
        Iterate();
        LoopUnfolds(params, before, |pathStr| + 1 - i);
        i := i + 1;
        if i > |pathStr| {
          break;
        }
      }
      points := allPoints;
    }

    /** One iteration of the loop in `parse`: the character at the head decides what is consumed. */
    method Iterate()
      requires Valid() && |pathString| > 0
      modifies this
      ensures State() == Step(params, old(State()))
    {
      ghost var ps := params(pathString);
      Dispatch(State(), ps);
      var c := pathString[0];
      if IsAlpha(c) {
        var commandLower := ToLower(c);
        if !IsCommandLetter(commandLower) {
          SkipParams();
        } else if commandLower == 'm' {
          HandleMs();
        } else if commandLower == 'z' {
          HandleZs();
        } else if commandLower == 'l' {
          HandleLs();
        } else if commandLower == 'h' {
          HandleHs();
        } else if commandLower == 'v' {
          HandleVs();
        } else {
          HandleCurves();
        }
      } else if IsSeparator(c) {
        UpdateOne();
      } else if IsDigit(c) {
        UpdateOne();
      } else {
        UpdateOne();
      }
    }

    /** `savePoint`: append a copy of the current point. */
    method SavePoint()
      modifies this
      ensures State() == old(State()).(out := old(allPoints) + [currPoint])
    {
      allPoints := allPoints + [currPoint];
    }

    method UpdateOne()
      requires |pathString| > 0
      modifies this
      ensures State() == DropOne(old(State()))
    {
      pathString := pathString[1..];
      counter := counter + 1;
    }

    method UpdateVars(nextIdx: int)
      requires nextIdx == -1 || 0 <= nextIdx <= |pathString|
      modifies this
      ensures State() == Consume(old(State()), nextIdx)
    {
      if nextIdx == -1 {
        counter := counter + |pathString|;
        pathString := "";
      } else {
        counter := counter + nextIdx;
        pathString := pathString[nextIdx..];
      }
    }

    method ProcessPoints(start: nat, c: char, points: seq<Num>, step: nat)
      requires step > 0
      modifies this
      ensures var e := Emitted(start, c, points, step, old(currPoint));
        State() == old(State()).(curr := e.0, out := old(allPoints) + e.1)
    {
      var i := start;
      while i < |points|
        invariant start <= i
        invariant pathString == old(pathString) && counter == old(counter) && initPoint == old(initPoint)
        invariant Emitted(i, c, points, step, currPoint).0 == Emitted(start, c, points, step, old(currPoint)).0
        invariant allPoints + Emitted(i, c, points, step, currPoint).1
                  == old(allPoints) + Emitted(start, c, points, step, old(currPoint)).1
        decreases |points| - i
      {
        if c == ToLower(c) {
          var x := Add(currPoint.x, points[i]);
          var y := Add(currPoint.y, Arg(points, i + 1));
          currPoint := Point(x, y);
        } else {
          currPoint := Point(points[i], Arg(points, i + 1));
        }
        SavePoint();
        i := i + step;
      }
    }

    method SkipParams()
      modifies this
      ensures State() == SkipStep(old(State()))
    {
      UpdateVars(NextCommand(pathString));
    }

    method HandleMs()
      requires Valid() && |pathString| > 0
      modifies this
      ensures State() == MoveToStep(old(State()), params(old(pathString)))
    {
      var ps := params(pathString);
      var points := ps.nums;
      var c := pathString[0];
      if |points| >= 2 {
        if counter == 0 || c == 'M' {
          initPoint := Point(points[0], points[1]);
        } else {
          initPoint := Point(Add(currPoint.x, points[0]), Add(currPoint.y, points[1]));
        }
        currPoint := initPoint;
        SavePoint();
        ProcessPoints(2, c, points, 2);
      }
      UpdateVars(ps.next);
    }

    method HandleLs()
      requires Valid() && |pathString| > 0
      modifies this
      ensures State() == LineToStep(old(State()), params(old(pathString)))
    {
      var ps := params(pathString);
      ProcessPoints(0, pathString[0], ps.nums, 2);
      UpdateVars(ps.next);
    }

    method HandleHs()
      requires Valid() && |pathString| > 0
      modifies this
      ensures State() == HorizontalStep(old(State()), params(old(pathString)))
    {
      var ps := params(pathString);
      if pathString[0] == 'h' {
        currPoint := Point(Add(currPoint.x, Arg(ps.nums, 0)), currPoint.y);
      } else {
        currPoint := Point(Arg(ps.nums, 0), currPoint.y);
      }
      SavePoint();
      UpdateVars(ps.next);
    }

    method HandleVs()
      requires Valid() && |pathString| > 0
      modifies this
      ensures State() == VerticalStep(old(State()), params(old(pathString)))
    {
      var ps := params(pathString);
      if |ps.nums| == 1 {
        if pathString[0] == 'v' {
          currPoint := Point(currPoint.x, Add(currPoint.y, ps.nums[0]));
        } else {
          currPoint := Point(currPoint.x, ps.nums[0]);
        }
        SavePoint();
        UpdateVars(ps.next);
      }
    }

    method HandleZs()
      requires |pathString| > 0
      modifies this
      ensures State() == CloseStep(old(State()))
    {
      currPoint := initPoint;
      SavePoint();
      UpdateVars(1);
    }

    method HandleCurves()
      requires Valid() && |pathString| > 0 && IsCurveLetter(ToLower(pathString[0]))
      modifies this
      ensures State() == CurveStep(old(State()), params(old(pathString)))
    {
      var ps := params(pathString);
      var c := pathString[0];
      var curveParam := CurveParams(ToLower(c));
      ProcessPoints(curveParam.start, c, ps.nums, curveParam.step);
      UpdateVars(ps.next);
    }
  }
}
