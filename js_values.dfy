/**
 * The JavaScript values the scene-graph and path-data code computes with:
 * numbers (without rounding, but with NaN and the two infinities), strings
 * and the few built-in string and array operations the code relies on.
 */
module JsValues {

  datatype Option<+T> = None | Some(value: T)

  datatype Result<+T, +E> = Ok(value: T) | Err(error: E)

  // ---------------------------------------------------------------- numbers

  /**
   * A JavaScript number: NaN, an infinity or a finite value. Rounding and the
   * sign of zero are not modelled. In arithmetic NaN also stands for
   * `undefined`, which JavaScript converts to NaN.
   */
  datatype Num = NaN | PosInf | NegInf | Fin(v: real)

  /** Number.MAX_VALUE, the largest finite double. */
  const MAX_VALUE: real := 1.7976931348623157e308

  /** Number.MIN_VALUE, the smallest POSITIVE double (not the most negative one). */
  const MIN_VALUE: real := 5e-324

  /** -1, 0 or 1 for a number that is not NaN. */
  function Sign(a: Num): int
    requires !a.NaN?
  {
    match a
    case PosInf => 1
    case NegInf => -1
    case Fin(x) => if x > 0.0 then 1 else if x < 0.0 then -1 else 0
  }

  function Neg(a: Num): Num
  {
    match a
    case NaN => NaN
    case PosInf => NegInf
    case NegInf => PosInf
    case Fin(x) => Fin(-x)
  }

  /** `a + b` */
  function Add(a: Num, b: Num): Num
  {
    if a.NaN? || b.NaN? then NaN
    else if a.Fin? && b.Fin? then Fin(a.v + b.v)
    else if (a == PosInf && b == NegInf) || (a == NegInf && b == PosInf) then NaN
    else if a == PosInf || b == PosInf then PosInf
    else NegInf
  }

  /** `a - b` */
  function Sub(a: Num, b: Num): Num
  {
    Add(a, Neg(b))
  }

  /** `a * b`; an infinity times zero is NaN. */
  function Mul(a: Num, b: Num): Num
  {
    if a.NaN? || b.NaN? then NaN
    else if a.Fin? && b.Fin? then Fin(a.v * b.v)
    else if Sign(a) == 0 || Sign(b) == 0 then NaN
    else if Sign(a) == Sign(b) then PosInf
    else NegInf
  }

  /** `a / b`; a non-zero number over zero is an infinity, zero over zero is NaN. */
  function Div(a: Num, b: Num): Num
  {
    if a.NaN? || b.NaN? then NaN
    else if b == Fin(0.0) then
      (if a == Fin(0.0) then NaN else if Sign(a) > 0 then PosInf else NegInf)
    else if a.Fin? && b.Fin? then Fin(a.v / b.v)
    else if !a.Fin? && !b.Fin? then NaN
    else if a.Fin? then Fin(0.0)
    else if Sign(a) == Sign(b) then PosInf
    else NegInf
  }

  /** `a < b`: false whenever NaN is involved. */
  predicate Less(a: Num, b: Num)
  {
    if a.NaN? || b.NaN? then false
    else match a
      case NegInf => b != NegInf
      case PosInf => false
      case Fin(x) => b == PosInf || (b.Fin? && x < b.v)
  }

  /** `a > b` */
  predicate Greater(a: Num, b: Num)
  {
    Less(b, a)
  }

  /** A number in a boolean context: NaN and zero are false. */
  predicate Truthy(a: Num)
  {
    !a.NaN? && a != Fin(0.0)
  }

  /** `a || fallback` on numbers. */
  function Or(a: Num, fallback: real): (r: Num)
    ensures Truthy(a) ==> r == a
    ensures !Truthy(a) ==> r == Fin(fallback)
    ensures !r.NaN? && (Truthy(r) || r == Fin(fallback))
    ensures fallback != 0.0 ==> Truthy(r)
  {
    if Truthy(a) then a else Fin(fallback)
  }

  /** `Math.min(a, b)` */
  function Min2(a: Num, b: Num): Num
  {
    if a.NaN? || b.NaN? then NaN else if Less(b, a) then b else a
  }

  /** `Math.max(a, b)` */
  function Max2(a: Num, b: Num): Num
  {
    if a.NaN? || b.NaN? then NaN else if Greater(b, a) then b else a
  }

  /** `Math.min(...xs)`: +Infinity for no arguments, NaN if any argument is NaN. */
  function MathMin(xs: seq<Num>): (r: Num)
    ensures |xs| == 0 ==> r == PosInf
    ensures (exists i :: 0 <= i < |xs| && xs[i].NaN?) <==> r.NaN?
    ensures !r.NaN? ==> forall i :: 0 <= i < |xs| ==> !Less(xs[i], r)
    ensures 0 < |xs| ==> r in xs || r.NaN?
  {
    if |xs| == 0 then PosInf
    else
      var m := MathMin(xs[1..]);
      assert forall i :: 1 <= i < |xs| ==> xs[i] == xs[1..][i - 1];
      Min2(xs[0], m)
  }

  /** `Math.max(...xs)`: -Infinity for no arguments, NaN if any argument is NaN. */
  function MathMax(xs: seq<Num>): (r: Num)
    ensures |xs| == 0 ==> r == NegInf
    ensures (exists i :: 0 <= i < |xs| && xs[i].NaN?) <==> r.NaN?
    ensures !r.NaN? ==> forall i :: 0 <= i < |xs| ==> !Greater(xs[i], r)
    ensures 0 < |xs| ==> r in xs || r.NaN?
  {
    if |xs| == 0 then NegInf
    else
      var m := MathMax(xs[1..]);
      assert forall i :: 1 <= i < |xs| ==> xs[i] == xs[1..][i - 1];
      Max2(xs[0], m)
  }

  /** `parseFloat`, which the model takes as a parameter. */
  type NumberReader = string -> Num

  /** `<` on numbers is transitive. */
  lemma LessTransitive(a: Num, b: Num, c: Num)
    requires Less(a, b) && Less(b, c)
    ensures Less(a, c)
  {
  }

  // ---------------------------------------------------------------- strings

  /** The characters of the `\s` class, which are also those `trim` removes. */
  predicate IsJsSpace(c: char)
  {
    c == ' ' || c == '\t' || c == '\n' || c == '\r' || c == '\U{000B}' || c == '\U{000C}'
    || c == '\U{00A0}' || c == '\U{1680}' || ('\U{2000}' <= c <= '\U{200A}')
    || c == '\U{2028}' || c == '\U{2029}' || c == '\U{202F}' || c == '\U{205F}'
    || c == '\U{3000}' || c == '\U{FEFF}'
  }

  /** `s` without its leading white space. */
  function TrimStart(s: string): (r: string)
    ensures |r| <= |s| && r == s[|s| - |r|..]
    ensures forall k :: 0 <= k < |s| - |r| ==> IsJsSpace(s[k])
    ensures |r| == 0 || !IsJsSpace(r[0])
  {
    if |s| > 0 && IsJsSpace(s[0]) then TrimStart(s[1..]) else s
  }

  /** `s` without its trailing white space. */
  function TrimEnd(s: string): (r: string)
    ensures |r| <= |s| && r == s[..|r|]
    ensures forall k :: |r| <= k < |s| ==> IsJsSpace(s[k])
    ensures |r| == 0 || !IsJsSpace(r[|r| - 1])
  {
    if |s| > 0 && IsJsSpace(s[|s| - 1]) then TrimEnd(s[..|s| - 1]) else s
  }

  /** `s.trim()` */
  function Trim(s: string): (r: string)
  {
    TrimEnd(TrimStart(s))
  }

  /** `s.trim()` removes exactly the white space at both ends: it is a slice of `s` with only spaces outside it. */
  lemma TrimIsInnerSlice(s: string)
    ensures exists i, j :: (0 <= i <= j <= |s| && Trim(s) == s[i..j]
      && (forall k :: 0 <= k < i ==> IsJsSpace(s[k]))
      && (forall k :: j <= k < |s| ==> IsJsSpace(s[k])))
    ensures |Trim(s)| == 0 || (!IsJsSpace(Trim(s)[0]) && !IsJsSpace(Trim(s)[|Trim(s)| - 1]))
  {
    var t := TrimStart(s);
    var r := TrimEnd(t);
    var i := |s| - |t|;
    var j := i + |r|;
    assert Trim(s) == s[i..j] by {
      assert t == s[i..];
      assert r == t[..|r|];
    }
    assert forall k :: j <= k < |s| ==> IsJsSpace(s[k]) by {
      forall k | j <= k < |s| ensures IsJsSpace(s[k]) {
        assert s[k] == t[k - i];
      }
    }
    assert |r| > 0 ==> r[0] == t[0];
  }

  /** Trimming twice is trimming once. */
  lemma TrimIdempotent(s: string)
    ensures Trim(Trim(s)) == Trim(s)
  {
    var r := Trim(s);
    TrimIsInnerSlice(s);
    assert |r| == 0 || !IsJsSpace(r[0]);
    assert TrimStart(r) == r;
  }

  /** `s.split(sep)` for a one-character separator. */
  function Split(s: string, sep: char): (r: seq<string>)
    ensures |r| >= 1
    ensures forall i :: 0 <= i < |r| ==> sep !in r[i]
    decreases |s|
  {
    if |s| == 0 then [""]
    else
      var rest := Split(s[1..], sep);
      if s[0] == sep then [""] + rest
      else [[s[0]] + rest[0]] + rest[1..]
  }

  /** A string splits into one piece exactly when it does not contain the separator. */
  lemma {:induction false} SplitSingle(s: string, sep: char)
    ensures |Split(s, sep)| == 1 <==> sep !in s
    ensures sep !in s ==> Split(s, sep) == [s]
    decreases |s|
  {
    if |s| > 0 {
      SplitSingle(s[1..], sep);
      assert s == [s[0]] + s[1..];
    }
  }

  /** `parts.join(sep)` */
  function Join(parts: seq<string>, sep: char): string
  {
    if |parts| == 0 then ""
    else if |parts| == 1 then parts[0]
    else parts[0] + [sep] + Join(parts[1..], sep)
  }

  /** Splitting loses nothing: joining the pieces back gives the original string. */
  lemma {:induction false} JoinSplit(s: string, sep: char)
    ensures Join(Split(s, sep), sep) == s
    decreases |s|
  {
    if |s| > 0 {
      var rest := Split(s[1..], sep);
      JoinSplit(s[1..], sep);
      if s[0] == sep {
        assert Split(s, sep) == [""] + rest;
        assert s == [s[0]] + s[1..];
      } else if |rest| == 1 {
        assert s == [s[0]] + rest[0];
      } else {
        assert Split(s, sep)[1..] == rest[1..];
        assert s == [s[0]] + (rest[0] + [sep] + Join(rest[1..], sep));
      }
    }
  }

  /** Splitting a joined list whose pieces do not contain the separator gives the pieces back. */
  lemma {:induction false} SplitJoin(parts: seq<string>, sep: char)
    requires |parts| >= 1
    requires forall i :: 0 <= i < |parts| ==> sep !in parts[i]
    ensures Split(Join(parts, sep), sep) == parts
    decreases |parts|, |parts[0]|
  {
    var p := parts[0];
    if |p| > 0 {
      var parts' := [p[1..]] + parts[1..];
      var j' := Join(parts', sep);
      assert Join(parts, sep) == [p[0]] + j' by {
        if |parts| > 1 {
          assert j' == p[1..] + [sep] + Join(parts[1..], sep);
        }
      }
      calc {
        Split(Join(parts, sep), sep);
        { SplitOther(p[0], j', sep); }
        [[p[0]] + Split(j', sep)[0]] + Split(j', sep)[1..];
        { SplitJoin(parts', sep); }
        [[p[0]] + p[1..]] + parts[1..];
        { assert [p[0]] + p[1..] == p; }
        parts;
      }
    } else if |parts| > 1 {
      var j' := Join(parts[1..], sep);
      assert Join(parts, sep) == [sep] + j';
      calc {
        Split(Join(parts, sep), sep);
        { SplitSeparator(j', sep); }
        [""] + Split(j', sep);
        { SplitJoin(parts[1..], sep); }
        [p] + parts[1..];
        parts;
      }
    }
  }

  /** A character other than the separator joins the first piece. */
  lemma SplitOther(c: char, s: string, sep: char)
    requires c != sep
    ensures Split([c] + s, sep) == [[c] + Split(s, sep)[0]] + Split(s, sep)[1..]
  {
    assert ([c] + s)[1..] == s;
  }

  /** A separator starts a new, first piece. */
  lemma SplitSeparator(s: string, sep: char)
    ensures Split([sep] + s, sep) == [""] + Split(s, sep)
  {
    assert ([sep] + s)[1..] == s;
  }

  /** `s.indexOf(x)`: the first position of `x`, or -1. */
  function IndexOf<T(==)>(s: seq<T>, x: T): (r: int)
    ensures -1 <= r < |s|
    ensures r == -1 <==> x !in s
    ensures r >= 0 ==> s[r] == x && x !in s[..r]
  {
    if |s| == 0 then -1
    else if s[0] == x then 0
    else
      var r := IndexOf(s[1..], x);
      assert s[1..][..(if r < 0 then 0 else r)] == s[1..(if r < 0 then 1 else r + 1)];
      if r == -1 then -1 else r + 1
  }

  // ---------------------------------------------------------------- arrays

  /** A position argument of `slice`: negative counts from the end, then clamped into 0..n. */
  function SliceIndex(i: int, n: nat): (r: nat)
    ensures r <= n
    ensures 0 <= i <= n ==> r == i
    ensures -(n as int) <= i < 0 ==> r as int == n + i
    ensures i > n ==> r == n
    ensures i < -(n as int) ==> r == 0
  {
    if i < 0 then (if n + i < 0 then 0 else n + i)
    else if i > n then n
    else i
  }

  /** `s.slice(start, end)` */
  function Slice<T>(s: seq<T>, start: int, end: int): seq<T>
  {
    var from := SliceIndex(start, |s|);
    var to := SliceIndex(end, |s|);
    if from <= to then s[from..to] else []
  }
}
