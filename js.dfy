/** The JavaScript built-ins the core relies on, stated over Dafny's own types.

    - `JsNum` is a JavaScript number as far as the core can tell them apart: NaN or a real.
    - `Ext` is a real extended with the two infinities, for the bounding box's start value.
    - `MathLib` stands for `Math.sqrt`/`Math.hypot`, `Math.atan2`, `Math.cos`, `Math.sin` and
      `Math.log10`. They are passed in as function values; `Sound` lists the only facts about
      them that the proofs use.
    - String helpers: `split`, `trim`, `startsWith`, `toUpperCase` on the characters the core
      feeds them.
 */
module Js {

  datatype Option<T> = None | Some(value: T)

  /** A JavaScript number: NaN, or a real value (infinities and signed zero are not modelled). */
  datatype JsNum = NaN | Num(val: real)

  /** JavaScript truthiness of an optional number: `undefined`, `NaN` and `0` are falsy. */
  predicate Truthy(n: Option<JsNum>) {
    n.Some? && n.value.Num? && n.value.val != 0.0
  }

  /** `n || d` for an optional number. */
  function OrElse(n: Option<JsNum>, d: real): (r: real)
    ensures Truthy(n) ==> r == n.value.val && r != 0.0
    ensures !Truthy(n) ==> r == d
  {
    if Truthy(n) then n.value.val else d
  }

  /** `Math.PI`, as the decimal literal of the double it denotes. */
  const PI: real := 3.141592653589793

  // ---------------------------------------------------------------- extended reals

  /** A real or one of the two infinities (`Infinity`, `-Infinity`). */
  datatype Ext = NegInf | Fin(r: real) | PosInf

  predicate ExtLe(a: Ext, b: Ext) {
    a.NegInf? || b.PosInf? || (a.Fin? && b.Fin? && a.r <= b.r)
  }

  /** `Math.min(a, b)` with `b` finite. */
  function ExtMin(a: Ext, b: real): (r: Ext)
    ensures ExtLe(r, a) && ExtLe(r, Fin(b))
    ensures r == a || r == Fin(b)
  {
    if a.NegInf? || (a.Fin? && a.r < b) then a else Fin(b)
  }

  /** `Math.max(a, b)` with `b` finite. */
  function ExtMax(a: Ext, b: real): (r: Ext)
    ensures ExtLe(a, r) && ExtLe(Fin(b), r)
    ensures r == a || r == Fin(b)
  {
    if a.PosInf? || (a.Fin? && a.r > b) then a else Fin(b)
  }

  // ---------------------------------------------------------------- Math

  datatype MathLib = MathLib(
    sqrt: real -> real,
    atan2: (real, real) -> real,
    cos: real -> real,
    sin: real -> real,
    log10: real -> real)

  /** What the proofs assume of the `Math` functions: a square root is non-negative and is zero
      at zero; `atan2` lies in (-PI, PI] (reals have no signed zero, so -PI is not reached). */
  ghost predicate Sound(m: MathLib) {
    && (forall x :: 0.0 <= x ==> 0.0 <= m.sqrt(x))
    && m.sqrt(0.0) == 0.0
    && (forall y, x :: -PI < m.atan2(y, x) <= PI)
  }

  /** `Math.sqrt(x)`. */
  function Sqrt(m: MathLib, x: real): real {
    m.sqrt(x)
  }

  /** `Math.atan2(y, x)`. */
  function Atan2(m: MathLib, y: real, x: real): real {
    m.atan2(y, x)
  }

  /** `Math.log10(x)`. */
  function Log10(m: MathLib, x: real): real {
    m.log10(x)
  }

  /** `Math.hypot(dx, dy, dz)`, the same value as `Math.sqrt(dx*dx + dy*dy + dz*dz)`. */
  function Hypot3(m: MathLib, dx: real, dy: real, dz: real): (r: real)
    ensures Sound(m) ==> 0.0 <= r
    ensures Sound(m) && dx == 0.0 && dy == 0.0 && dz == 0.0 ==> r == 0.0
  {
    SumOfSquares(dx, dy, dz);
    m.sqrt(dx * dx + dy * dy + dz * dz)
  }

  lemma Square(x: real)
    ensures 0.0 <= x * x
    ensures x != 0.0 ==> 0.0 < x * x
  {
    if x < 0.0 {
      assert x * x == (-x) * (-x);
    } else if x == 0.0 {
      assert x * x == 0.0;
    }
  }

  lemma SumOfSquares(dx: real, dy: real, dz: real)
    ensures 0.0 <= dx * dx + dy * dy + dz * dz
    ensures dx == 0.0 && dy == 0.0 && dz == 0.0 ==> dx * dx + dy * dy + dz * dz == 0.0
  {
    Square(dx);
    Square(dy);
    Square(dz);
  }

  function Abs(x: real): real {
    if x < 0.0 then -x else x
  }

  function Max(a: real, b: real): real {
    if a < b then b else a
  }

  function Min(a: real, b: real): real {
    if a < b then a else b
  }

  /** `Math.floor(x)`. */
  function Floor(x: real): int {
    x.Floor
  }

  /** ToInt32-free truncation toward zero, as `%` on doubles uses it. */
  function Trunc(x: real): (r: int)
    ensures 0.0 <= x ==> r == x.Floor
    ensures x < 0.0 ==> r == -((-x).Floor)
  {
    if 0.0 <= x then x.Floor else -((-x).Floor)
  }

  /** JavaScript `a % b` on numbers: the remainder takes the sign of the dividend. */
  function JsRem(a: real, b: real): (r: real)
    requires b != 0.0
  {
    a - b * Trunc(a / b) as real
  }

  // ---------------------------------------------------------------- strings

  /** A JavaScript LineTerminator. */
  predicate IsLineTerminator(c: char) {
    c == '\n' || c == '\r' || c == '\U{2028}' || c == '\U{2029}'
  }

  /** A character `String.prototype.trim` removes: WhiteSpace or LineTerminator. */
  predicate IsJsSpace(c: char) {
    || IsLineTerminator(c)
    || c == ' ' || c == '\t' || c == '\U{000B}' || c == '\U{000C}'
    || c == '\U{00A0}' || c == '\U{FEFF}' || c == '\U{1680}'
    || ('\U{2000}' <= c <= '\U{200A}')
    || c == '\U{202F}' || c == '\U{205F}' || c == '\U{3000}'
  }

  function TrimStart(s: string): (r: string)
    ensures |r| <= |s| && r == s[|s| - |r|..]
    ensures forall i :: 0 <= i < |s| - |r| ==> IsJsSpace(s[i])
    ensures r == [] || !IsJsSpace(r[0])
  {
    if s != [] && IsJsSpace(s[0]) then
      var r := TrimStart(s[1..]);
      assert s[1..][|s| - 1 - |r|..] == s[|s| - |r|..];
      assert forall i :: 1 <= i < |s| - |r| ==> s[i] == s[1..][i - 1];
      r
    else s
  }

  function TrimEnd(s: string): (r: string)
    ensures |r| <= |s| && r == s[..|r|]
    ensures forall i :: |r| <= i < |s| ==> IsJsSpace(s[i])
    ensures r == [] || !IsJsSpace(r[|r| - 1])
  {
    if s != [] && IsJsSpace(s[|s| - 1]) then TrimEnd(s[..|s| - 1]) else s
  }

  /** `s.trim()`: the longest infix of `s` that neither starts nor ends with white space. */
  function Trim(s: string): (r: string)
    ensures r == [] || (!IsJsSpace(r[0]) && !IsJsSpace(r[|r| - 1]))
    ensures r == [] <==> forall i :: 0 <= i < |s| ==> IsJsSpace(s[i])
  {
    var t := TrimStart(s);
    var r := TrimEnd(t);
    assert r != [] ==> !IsJsSpace(r[0]) by {
      if r != [] { assert r[0] == t[0]; }
    }
    assert t != [] ==> r != [] by {
      if t != [] && r == [] { assert false; }
    }
    r
  }

  /** The number of occurrences of `c` in `s`. */
  function Count(s: string, c: char): nat {
    if s == [] then 0 else (if s[0] == c then 1 else 0) + Count(s[1..], c)
  }

  /** `s.split(sep)` for a one-character separator. */
  function Split(s: string, sep: char): (r: seq<string>)
    ensures |r| > 0
  {
    if s == [] then [""]
    else
      var rest := Split(s[1..], sep);
      if s[0] == sep then [""] + rest
      else [[s[0]] + rest[0]] + rest[1..]
  }

  /** There is one more piece than there are separators, and no piece contains the separator. */
  lemma {:induction false} SplitPieces(s: string, sep: char)
    ensures |Split(s, sep)| == Count(s, sep) + 1
    ensures forall i :: 0 <= i < |Split(s, sep)| ==> sep !in Split(s, sep)[i]
  {
    if s != [] {
      SplitPieces(s[1..], sep);
      var rest := Split(s[1..], sep);
      if s[0] != sep {
        var r := Split(s, sep);
        assert r[0] == [s[0]] + rest[0];
        assert sep !in r[0];
        forall i | 1 <= i < |r| ensures sep !in r[i] {
          assert r[i] == rest[i];
        }
      }
    }
  }

  /** `pieces.join([sep])`, the inverse of `Split`. */
  function Join(pieces: seq<string>, sep: char): string {
    if pieces == [] then ""
    else if |pieces| == 1 then pieces[0]
    else pieces[0] + [sep] + Join(pieces[1..], sep)
  }

  /** Splitting loses nothing: joining the pieces with the separator gives back the text. */
  lemma {:induction false} JoinSplit(s: string, sep: char)
    ensures Join(Split(s, sep), sep) == s
  {
    if s != [] {
      var rest := Split(s[1..], sep);
      JoinSplit(s[1..], sep);
      if s[0] == sep {
        assert Split(s, sep) == [""] + rest;
        assert Join([""] + rest, sep) == "" + [sep] + Join(rest, sep);
      } else {
        var r := Split(s, sep);
        assert r == [[s[0]] + rest[0]] + rest[1..];
        if |rest| == 1 {
          assert r == [[s[0]] + rest[0]];
        } else {
          assert r[1..] == rest[1..];
          assert Join(rest, sep) == rest[0] + [sep] + Join(rest[1..], sep);
          assert Join(r, sep) == [s[0]] + rest[0] + [sep] + Join(rest[1..], sep);
        }
      }
    }
  }

  predicate StartsWith(s: string, c: char) {
    |s| > 0 && s[0] == c
  }

  predicate IsAsciiLower(c: char) {
    'a' <= c <= 'z'
  }

  /** `toUpperCase` on one character, for the ASCII letters the token grammar admits. */
  function AsciiUpper(c: char): (r: char)
    ensures IsAsciiLower(c) ==> 'A' <= r <= 'Z' && r as int == c as int - 32
    ensures !IsAsciiLower(c) ==> r == c
  {
    if IsAsciiLower(c) then (c as int - 32) as char else c
  }
}
