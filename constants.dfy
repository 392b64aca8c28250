/** Types and constants shared by the interpreter, the playback engine and the renderer
    (lib/Constants.ts), with the two regular expressions the interpreter uses stated as
    functions: the command-word scanner and the trailing-comment stripper. */
module Constants {
  import opened Js

  // ---------------------------------------------------------------- data types

  datatype Point3D = Point3D(x: real, y: real, z: real)

  datatype SegmentType = Rapid | Linear | ArcCW | ArcCCW

  datatype ColorMode = Default | Axis | Progressive

  /** One motion segment. `feed` and `spindle` are absent on rapids; `center` and `radius` are
      present only on arc chords. */
  datatype GCodeSegment = GCodeSegment(
    kind: SegmentType,
    from: Point3D,
    to: Point3D,
    feed: Option<JsNum>,
    spindle: Option<JsNum>,
    center: Option<Point3D>,
    radius: Option<real>)

  datatype BoundingBox = BoundingBox(minX: Ext, maxX: Ext, minY: Ext, maxY: Ext, minZ: Ext, maxZ: Ext)

  datatype PathStatistics = PathStatistics(
    totalDistance: real,
    rapidDistance: real,
    cutDistance: real,
    estimatedTime: real,
    lineCount: nat)

  datatype ParseResult = ParseResult(segments: seq<GCodeSegment>, bbox: BoundingBox, stats: PathStatistics)

  /** The tool position reported to the host; `spindleOn` is the `'ON'`/`'OFF'` field. */
  datatype ToolPosition = ToolPosition(x: real, y: real, z: real, feed: real, spindleOn: bool)

  datatype SimulationState = SimulationState(
    isPlaying: bool,
    isPaused: bool,
    currentSegmentIndex: int,
    progress: real,
    speed: real)

  // ---------------------------------------------------------------- defaults

  const DefaultFeedRate: real := 600.0
  const DefaultSpindleSpeed: real := 12000.0
  const DefaultArcSegments: int := 60
  const ToolheadAutoHideSize: real := 500.0

  // ---------------------------------------------------------------- colours (0xRRGGBB)

  const RapidColor: int := 0xffd166
  const LinearCutColor: int := 0xff0000
  const ArcCutColor: int := 0x00ff00
  const AxisXColor: int := 0xff0000
  const AxisYColor: int := 0x00ff00
  const AxisZColor: int := 0x0000ff
  const ProgressiveStartColor: int := 0xffffff
  const ProgressiveXColor: int := 0xff0000
  const ProgressiveYColor: int := 0x00ff00

  // ---------------------------------------------------------------- the command-word pattern
  // `([GMXYZIJKFSR])([-+]?[\d.]+)` with the `g` and `i` flags.

  predicate IsCommandLetter(c: char) {
    AsciiUpper(c) in "GMXYZIJKFSR"
  }

  /** The `i` flag: a command word may start with any of the eleven letters in either case. */
  lemma LetterEitherCase()
    ensures forall c :: IsCommandLetter(c) <==> c in "GMXYZIJKFSRgmxyzijkfsr"
  {
  }

  predicate IsDigit(c: char) {
    '0' <= c <= '9'
  }

  predicate IsValueChar(c: char) {
    IsDigit(c) || c == '.'
  }

  predicate IsSign(c: char) {
    c == '-' || c == '+'
  }

  /** A string the value group `[-+]?[\d.]+` matches in full. */
  predicate IsValueText(t: string) {
    var body := if |t| > 0 && IsSign(t[0]) then t[1..] else t;
    |body| > 0 && forall i :: 0 <= i < |body| ==> IsValueChar(body[i])
  }

  /** The length of the longest prefix of `s` made of digits and dots. */
  function ValueRun(s: string): (n: nat)
    ensures n <= |s|
    ensures forall i :: 0 <= i < n ==> IsValueChar(s[i])
    ensures n < |s| ==> !IsValueChar(s[n])
  {
    if s != [] && IsValueChar(s[0]) then 1 + ValueRun(s[1..]) else 0
  }

  /** The length of the pattern's match anchored at the start of `s`, or 0 when it does not match
      there. The value group is greedy; the sign is optional, so a sign not followed by a digit or
      a dot makes the attempt fail. */
  function MatchAt(s: string): (n: nat)
    ensures n == 0 || 2 <= n <= |s|
    ensures n != 0 ==> IsCommandLetter(s[0]) && IsValueText(s[1..n])
    ensures n != 0 ==> n == |s| || !IsValueChar(s[n])
    ensures n != 0 <==> |s| >= 2 && IsCommandLetter(s[0])
                        && (IsValueChar(s[1]) || (|s| >= 3 && IsSign(s[1]) && IsValueChar(s[2])))
  {
    if |s| >= 2 && IsCommandLetter(s[0]) then
      if |s| >= 3 && IsSign(s[1]) && IsValueChar(s[2]) then
        assert s[1..2 + ValueRun(s[2..])][1..] == s[2..][..ValueRun(s[2..])];
        2 + ValueRun(s[2..])
      else if IsValueChar(s[1]) then
        assert s[1..1 + ValueRun(s[1..])] == s[1..][..ValueRun(s[1..])];
        1 + ValueRun(s[1..])
      else 0
    else 0
  }

  /** One match: the letter as written (`match[1]`) and the value text (`match[2]`). */
  datatype Token = Token(letter: char, text: string)

  /** `line.matchAll(pattern)`: scanning left to right, a match consumes its text and a failed
      attempt moves on by one character. */
  function Matches(s: string): (ts: seq<Token>)
    ensures forall i :: 0 <= i < |ts| ==> IsCommandLetter(ts[i].letter) && IsValueText(ts[i].text)
    ensures |ts| <= |s| / 2
    decreases |s|
  {
    if s == [] then []
    else
      var n := MatchAt(s);
      if n == 0 then Matches(s[1..])
      else [Token(s[0], s[1..n])] + Matches(s[n..])
  }

  /** The scan yields nothing exactly when the pattern matches at no position of the line. */
  lemma {:induction false} NoMatches(s: string)
    ensures Matches(s) == [] <==> forall k :: 0 <= k < |s| ==> MatchAt(s[k..]) == 0
    decreases |s|
  {
    if s != [] {
      assert s[0..] == s;
      if MatchAt(s) == 0 {
        NoMatches(s[1..]);
        assert forall k :: 1 <= k < |s| ==> s[1..][k - 1..] == s[k..];
      }
    }
  }

  /** The value run of a value text followed by a character that cannot continue it. */
  lemma {:induction false} ValueRunOf(v: string, rest: string)
    requires forall i :: 0 <= i < |v| ==> IsValueChar(v[i])
    requires rest == [] || !IsValueChar(rest[0])
    ensures ValueRun(v + rest) == |v|
  {
    if v != [] {
      assert (v + rest)[1..] == v[1..] + rest;
      ValueRunOf(v[1..], rest);
    } else {
      assert v + rest == rest;
    }
  }

  /** A command letter followed by a value text (signed or not, led by a digit or a dot) and a
      character that cannot continue it is one match, and scanning resumes right after it. */
  lemma MatchesWord(c: char, t: string, rest: string)
    requires IsCommandLetter(c) && IsValueText(t)
    requires rest == [] || !IsValueChar(rest[0])
    ensures Matches([c] + t + rest) == [Token(c, t)] + Matches(rest)
  {
    var s := [c] + t + rest;
    MatchAtWord(c, t, rest);
    assert s[1..1 + |t|] == t && s[1 + |t|..] == rest;
  }

  /** The match at such a word covers the letter and the whole value text. */
  lemma MatchAtWord(c: char, t: string, rest: string)
    requires IsCommandLetter(c) && IsValueText(t)
    requires rest == [] || !IsValueChar(rest[0])
    ensures MatchAt([c] + t + rest) == 1 + |t|
  {
    var s := [c] + t + rest;
    assert s[1..] == t + rest;
    if IsSign(t[0]) {
      assert s[2..] == t[1..] + rest;
      ValueRunOf(t[1..], rest);
    } else {
      ValueRunOf(t, rest);
    }
  }

  /** A character that does not start a match is skipped: it is not a command letter, or what
      follows it is neither a value character nor a sign and a value character. */
  lemma MatchesSkip(c: char, rest: string)
    requires !IsCommandLetter(c) || rest == []
          || !(IsValueChar(rest[0]) || (|rest| >= 2 && IsSign(rest[0]) && IsValueChar(rest[1])))
    ensures Matches([c] + rest) == Matches(rest)
  {
    var s := [c] + rest;
    assert s[1..] == rest;
    assert MatchAt(s) == 0;
  }

  /** `X-10` is one word, the letter X with the signed value text `-10`. */
  lemma SignedWordExample()
    ensures Matches("X-10") == [Token('X', "-10")]
  {
    assert "X-10" == ['X'] + "-10" + "";
    assert IsValueText("-10") by {
      var body := "-10"[1..];
      assert body == "10" && IsValueChar(body[0]) && IsValueChar(body[1]);
    }
    MatchesWord('X', "-10", "");
  }

  // ---------------------------------------------------------------- the comment pattern
  // `;.*$` without flags: `.` stops at line terminators and `$` is the end of the string.

  /** No line terminator follows position `k`. */
  predicate RestIsOneLine(s: string, k: nat) {
    forall j :: k < j < |s| ==> !IsLineTerminator(s[j])
  }

  /** Where the comment pattern's match begins, or `|s|` when it does not match. */
  function CommentStart(s: string): (i: nat)
    ensures i <= |s|
    ensures i < |s| ==> s[i] == ';' && RestIsOneLine(s, i)
    ensures forall k :: 0 <= k < i && s[k] == ';' ==> !RestIsOneLine(s, k)
  {
    if s == [] then 0
    else if s[0] == ';' && RestIsOneLine(s, 0) then 0
    else
      var i := 1 + CommentStart(s[1..]);
      assert forall k :: 1 <= k < |s| ==> (RestIsOneLine(s, k) <==> RestIsOneLine(s[1..], k - 1));
      i
  }

  /** `line.replace(/;.*$/, '')`. */
  function StripComment(s: string): (r: string)
    ensures r == s[..CommentStart(s)]
    ensures ';' !in s ==> r == s
  {
    s[..CommentStart(s)]
  }

  // ---------------------------------------------------------------- parseFloat

  /** The number of leading decimal digits of `s`. */
  function DigitRun(s: string): (n: nat)
    ensures n <= |s|
    ensures forall i :: 0 <= i < n ==> IsDigit(s[i])
    ensures n < |s| ==> !IsDigit(s[n])
  {
    if s != [] && IsDigit(s[0]) then 1 + DigitRun(s[1..]) else 0
  }

  /** The leading digit run of digits followed by a non-digit. */
  lemma {:induction false} DigitRunOf(ds: string, rest: string)
    requires IsDigitText(ds)
    requires rest == [] || !IsDigit(rest[0])
    ensures DigitRun(ds + rest) == |ds|
  {
    if ds != [] {
      assert (ds + rest)[1..] == ds[1..] + rest;
      DigitRunOf(ds[1..], rest);
    } else {
      assert ds + rest == rest;
    }
  }

  predicate IsDigitText(s: string) {
    forall i :: 0 <= i < |s| ==> IsDigit(s[i])
  }

  function Pow10(n: nat): (r: nat)
    ensures r >= 1
  {
    if n == 0 then 1 else 10 * Pow10(n - 1)
  }

  /** The value of a string of decimal digits. */
  function DigitsValue(ds: string): nat
    requires forall i :: 0 <= i < |ds| ==> IsDigit(ds[i])
  {
    if ds == [] then 0
    else
      assert IsDigit(ds[|ds| - 1]);
      10 * DigitsValue(ds[..|ds| - 1]) + (ds[|ds| - 1] as int - '0' as int)
  }

  /** `parseFloat` of a string without a sign: the longest prefix that reads as a decimal literal
      (digits, optionally a dot and more digits; or a dot and at least one digit); NaN if none. */
  function ParseUnsigned(b: string): (r: JsNum)
    ensures r.NaN? <==> !((|b| > 0 && IsDigit(b[0])) || (|b| > 1 && b[0] == '.' && IsDigit(b[1])))
    ensures r.Num? ==> 0.0 <= r.val
  {
    var ip := DigitRun(b);
    assert ip == 0 ==> b[..ip] == [] && b[ip..] == b;
    ReadNumber(b[..ip], b[ip..])
  }

  /** The number whose integer digits are `ds` and whose text goes on with `after`: a dot and
      the fraction digits, if any. */
  function ReadNumber(ds: string, after: string): (r: JsNum)
    requires IsDigitText(ds)
    ensures r.NaN? <==> |ds| == 0 && FractionRun(after) == 0
    ensures r.Num? ==> 0.0 <= r.val
  {
    if |ds| == 0 && FractionRun(after) == 0 then NaN
    else Num(DecimalValue(ds, FractionDigits(after)))
  }

  /** The number of fraction digits after a leading dot (0 without a dot). */
  function FractionRun(after: string): (n: nat)
    ensures n > 0 ==> |after| >= 1 + n && after[0] == '.'
    ensures n == 0 <==> !(|after| > 1 && after[0] == '.' && IsDigit(after[1]))
  {
    if |after| > 0 && after[0] == '.' then DigitRun(after[1..]) else 0
  }

  /** The fraction digits themselves. */
  function FractionDigits(after: string): (fs: string)
    ensures IsDigitText(fs) && |fs| == FractionRun(after)
  {
    var n := FractionRun(after);
    if n > 0 then after[1..1 + n] else ""
  }

  /** The number written `ds.fs`: the integer part plus the fraction digits over 10^|fs|. */
  function DecimalValue(ds: string, fs: string): (v: real)
    requires IsDigitText(ds) && IsDigitText(fs)
    ensures 0.0 <= v
  {
    DigitsValue(ds) as real + DigitsValue(fs) as real / Pow10(|fs|) as real
  }

  /** `parseFloat(t)` for the texts the value group can match: an optional sign, then as
      `ParseUnsigned`. */
  function ParseFloat(t: string): (r: JsNum)
    ensures r.Num? && !StartsWith(t, '-') ==> 0.0 <= r.val
    ensures r.Num? && StartsWith(t, '-') ==> r.val <= 0.0
    ensures !(|t| > 0 && IsSign(t[0])) ==> r == ParseUnsigned(t)
    ensures |t| > 0 && t[0] == '+' ==> r == ParseUnsigned(t[1..])
    ensures |t| > 0 && t[0] == '-' ==>
      (r.NaN? <==> ParseUnsigned(t[1..]).NaN?) && (r.Num? ==> r.val == -ParseUnsigned(t[1..]).val)
  {
    var neg := StartsWith(t, '-');
    var body := if |t| > 0 && IsSign(t[0]) then t[1..] else t;
    match ParseUnsigned(body)
    case NaN => NaN
    case Num(v) => Num(if neg then -v else v)
  }

  /** Digits, a dot and more digits, then anything that is not a digit, read as the integer part
      plus the fraction digits over a power of ten: a second dot ends the number. */
  lemma ParseDecimalValue(ds: string, fs: string, rest: string)
    requires IsDigitText(ds) && IsDigitText(fs) && |ds| + |fs| > 0
    requires rest == [] || !IsDigit(rest[0])
    ensures ParseUnsigned(ds + "." + fs + rest) == Num(DecimalValue(ds, fs))
  {
    assert ds + "." + fs + rest == ds + ("." + fs + rest);
    IntegerPart(ds, "." + fs + rest);
    FractionOf(fs, rest);
  }

  /** Digits followed by a non-digit: they are the integer part and the rest is read after it. */
  lemma IntegerPart(ds: string, after: string)
    requires IsDigitText(ds)
    requires after == [] || !IsDigit(after[0])
    ensures ParseUnsigned(ds + after) == ReadNumber(ds, after)
  {
    DigitRunOf(ds, after);
    var b := ds + after;
    assert b[..|ds|] == ds && b[|ds|..] == after;
  }

  /** A dot, fraction digits and a non-digit: exactly those digits are the fraction. */
  lemma FractionOf(fs: string, rest: string)
    requires IsDigitText(fs)
    requires rest == [] || !IsDigit(rest[0])
    ensures FractionRun("." + fs + rest) == |fs| && FractionDigits("." + fs + rest) == fs
  {
    var after := "." + fs + rest;
    assert after[1..] == fs + rest;
    DigitRunOf(fs, rest);
    if |fs| > 0 {
      assert after[1..1 + |fs|] == fs;
    }
  }

  /** Digits followed by anything that is neither a digit nor a dot read as their integer value. */
  lemma ParseIntegerValue(ds: string, rest: string)
    requires IsDigitText(ds) && |ds| > 0
    requires rest == [] || (!IsDigit(rest[0]) && rest[0] != '.')
    ensures ParseUnsigned(ds + rest) == Num(DigitsValue(ds) as real)
  {
    IntegerPart(ds, rest);
    assert FractionDigits(rest) == "";
    IntegerDecimal(ds);
  }

  lemma IntegerDecimal(ds: string)
    requires IsDigitText(ds)
    ensures DecimalValue(ds, "") == DigitsValue(ds) as real
  {
    assert DigitsValue("") == 0 && Pow10(0) == 1;
  }

  /** `1.2.3` reads as 1.2: the second dot ends the number. */
  lemma SecondDotEndsNumber()
    ensures ParseFloat("1.2.3") == Num(1.2)
  {
    ParseDecimalValue("1", "2", ".3");
    OnePointTwo();
    assert ParseUnsigned("1.2.3") == Num(1.2) by {
      assert "1.2.3" == "1" + "." + "2" + ".3";
    }
  }

  lemma OnePointTwo()
    ensures DecimalValue("1", "2") == 1.2
  {
    SingleDigit('1');
    SingleDigit('2');
    assert Pow10(1) == 10;
  }

  /** `-10` reads as -10. */
  lemma NegativeValueExample()
    ensures ParseFloat("-10") == Num(-10.0)
  {
    assert "-10"[1..] == "10" + "";
    ParseIntegerValue("10", "");
    assert "10"[..1] == "1";
    SingleDigit('1');
  }

  /** `.5` reads as 0.5: a leading dot is accepted. */
  lemma LeadingDotExample()
    ensures ParseFloat(".5") == Num(0.5)
  {
    ParseDecimalValue("", "5", "");
    PointFive();
    assert ParseUnsigned(".5") == Num(0.5) by {
      assert ".5" == "" + "." + "5" + "";
    }
  }

  lemma PointFive()
    ensures DecimalValue("", "5") == 0.5
  {
    SingleDigit('5');
    assert Pow10(1) == 10;
  }

  /** `5.` reads as 5: a trailing dot is accepted. */
  lemma TrailingDotExample()
    ensures ParseFloat("5.") == Num(5.0)
  {
    ParseDecimalValue("5", "", "");
    IntegerDecimal("5");
    SingleDigit('5');
    assert ParseUnsigned("5.") == Num(5.0) by {
      assert "5." == "5" + "." + "" + "";
    }
  }

  /** A lone dot is not a number. */
  lemma LoneDotIsNaN()
    ensures ParseFloat(".") == NaN
  {
  }

  lemma SingleDigit(c: char)
    requires IsDigit(c)
    ensures DigitsValue([c]) == c as int - '0' as int
  {
    assert [c][..0] == [];
  }
}
