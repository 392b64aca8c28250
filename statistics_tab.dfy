/** The elapsed-time text of components/tabs/StatisticsTab.tsx: `formatTime` splits a number of
    seconds into hours, minutes and seconds with `Math.floor` and `%`, and prints them as
    `h:mm:ss`; with no statistics the panel shows `0:00:00`. */
module StatisticsTab {
  import opened Js
  import opened Constants

  function DigitChar(d: nat): (c: char)
    requires d < 10
    ensures '0' <= c <= '9' && DigitValue(c) == d
  {
    ('0' as int + d) as char
  }

  function DigitValue(c: char): nat {
    if '0' <= c <= '9' then (c as int - '0' as int) else 0
  }

  /** `n.toString()` for a non-negative integer: its decimal digits, without leading zeros. */
  function NatToString(n: nat): (s: string)
    decreases n
  {
    if n < 10 then [DigitChar(n)] else NatToString(n / 10) + [DigitChar(n % 10)]
  }

  /** `n.toString()` for an integer. */
  function IntToString(n: int): string {
    if n < 0 then "-" + NatToString(-n) else NatToString(n)
  }

  predicate AllDigits(s: string) {
    forall i :: 0 <= i < |s| ==> '0' <= s[i] <= '9'
  }

  /** The value of a string of decimal digits. */
  function Decimal(s: string): nat {
    if s == [] then 0 else Decimal(s[..|s| - 1]) * 10 + DigitValue(s[|s| - 1])
  }

  /** The decimal text of `n` is made of digits, has no leading zero, and reads back as `n`. */
  lemma {:induction false} NatToStringDigits(n: nat)
    ensures |NatToString(n)| >= 1 && AllDigits(NatToString(n))
    ensures |NatToString(n)| > 1 ==> NatToString(n)[0] != '0'
    ensures Decimal(NatToString(n)) == n
    ensures n < 10 <==> |NatToString(n)| == 1
    decreases n
  {
    var s := NatToString(n);
    if n < 10 {
      assert s == [DigitChar(n)];
      assert Decimal(s) == Decimal([]) * 10 + DigitValue(s[0]);
    } else {
      NatToStringDigits(n / 10);
      var front := NatToString(n / 10);
      assert s == front + [DigitChar(n % 10)];
      assert s[..|s| - 1] == front;
      assert s[0] == front[0];
      assert Decimal(s) == Decimal(front) * 10 + DigitValue(s[|s| - 1]);
      assert Decimal(s) == (n / 10) * 10 + n % 10;
    }
  }

  /** `s.padStart(2, '0')`. */
  function PadStart2(s: string): (r: string) {
    if |s| >= 2 then s else seq(2 - |s|, _ => '0') + s
  }

  /** `Math.floor(seconds / 3600)`. */
  function Hours(seconds: real): int {
    Floor(seconds / 3600.0)
  }

  /** `Math.floor((seconds % 3600) / 60)`. */
  function Minutes(seconds: real): int {
    Floor(JsRem(seconds, 3600.0) / 60.0)
  }

  /** `Math.floor(seconds % 60)`. */
  function Secs(seconds: real): int {
    Floor(JsRem(seconds, 60.0))
  }

  /** `formatTime(seconds)`. */
  function FormatTime(seconds: real): string {
    IntToString(Hours(seconds)) + ":" + PadStart2(IntToString(Minutes(seconds))) + ":"
      + PadStart2(IntToString(Secs(seconds)))
  }

  /** The estimated-time cell of the panel: the formatted time, or `0:00:00` without statistics. */
  function EstimatedTimeText(stats: Option<PathStatistics>): (r: string)
    ensures stats == None ==> r == "0:00:00"
  {
    match stats
    case None => "0:00:00"
    case Some(s) => FormatTime(s.estimatedTime)
  }

  /** For a non-negative time the three fields are the hours, minutes and seconds of the whole
      seconds: minutes and seconds are below 60 and together they add up to `floor(seconds)`. */
  lemma TimeDecomposition(seconds: real)
    requires 0.0 <= seconds
    ensures 0 <= Hours(seconds) && 0 <= Minutes(seconds) < 60 && 0 <= Secs(seconds) < 60
    ensures 3600 * Hours(seconds) + 60 * Minutes(seconds) + Secs(seconds) == Floor(seconds)
  {
    var n := Floor(seconds);
    var h := Hours(seconds);
    assert h == n / 3600 by {
      assert h as real <= seconds / 3600.0 < h as real + 1.0;
      assert 3600 * h <= n < 3600 * h + 3600;
    }
    var hourRest := JsRem(seconds, 3600.0);
    assert hourRest == seconds - 3600.0 * h as real;
    assert Floor(hourRest) == n - 3600 * h;
    assert Minutes(seconds) == (n % 3600) / 60 by {
      var mm := Minutes(seconds);
      assert mm as real <= hourRest / 60.0 < mm as real + 1.0;
      assert 60 * mm <= n - 3600 * h < 60 * mm + 60;
    }
    var q := Floor(seconds / 60.0);
    assert q == n / 60 by {
      assert q as real <= seconds / 60.0 < q as real + 1.0;
      assert 60 * q <= n < 60 * q + 60;
    }
    assert JsRem(seconds, 60.0) == seconds - 60.0 * q as real;
    assert Secs(seconds) == n % 60;
    var mins := (n % 3600) / 60;
    assert n % 3600 == 60 * mins + (n % 3600) % 60;
    DivMod60(n, 60 * h + mins, (n % 3600) % 60);
  }

  /** A value below 60 prints as exactly two digits: its tens and its units. */
  lemma PaddedTwoDigits(v: int)
    requires 0 <= v < 60
    ensures PadStart2(IntToString(v)) == [DigitChar(v / 10), DigitChar(v % 10)]
    ensures Decimal(PadStart2(IntToString(v))) == v
  {
    var s := NatToString(v);
    if v < 10 {
      assert s == [DigitChar(v)];
      assert PadStart2(s) == ['0'] + s;
    } else {
      assert s == NatToString(v / 10) + [DigitChar(v % 10)];
      assert NatToString(v / 10) == [DigitChar(v / 10)];
    }
    var p := PadStart2(s);
    assert p == [DigitChar(v / 10), DigitChar(v % 10)];
    TwoDigitValue(v / 10, v % 10);
  }

  lemma TwoDigitValue(a: nat, b: nat)
    requires a < 10 && b < 10
    ensures Decimal([DigitChar(a), DigitChar(b)]) == 10 * a + b
  {
    var p := [DigitChar(a), DigitChar(b)];
    assert p[..1] == [DigitChar(a)];
    assert p[..1][..0] == [];
    assert Decimal(p[..1]) == a;
  }

  /** Division by 60 determined by quotient and remainder. */
  lemma DivMod60(n: int, q: int, r: int)
    requires n == 60 * q + r && 0 <= r < 60
    ensures n / 60 == q && n % 60 == r
  {
  }

  /** The layout of `formatTime` for a non-negative time: the unpadded hours, a colon, two
      digits of minutes, a colon and two digits of seconds; each field reads back as its value. */
  lemma FormatTimeLayout(seconds: real)
    requires 0.0 <= seconds
    ensures var f := FormatTime(seconds);
      && |f| >= 7 && f[|f| - 6] == ':' && f[|f| - 3] == ':'
      && AllDigits(f[..|f| - 6]) && Decimal(f[..|f| - 6]) == Hours(seconds)
      && f[|f| - 5..|f| - 3] == [DigitChar(Minutes(seconds) / 10), DigitChar(Minutes(seconds) % 10)]
      && f[|f| - 2..] == [DigitChar(Secs(seconds) / 10), DigitChar(Secs(seconds) % 10)]
      && Decimal(f[|f| - 5..|f| - 3]) == Minutes(seconds) && Decimal(f[|f| - 2..]) == Secs(seconds)
  {
    TimeDecomposition(seconds);
    var h, mm, ss := Hours(seconds), Minutes(seconds), Secs(seconds);
    NatToStringDigits(h);
    PaddedTwoDigits(mm);
    PaddedTwoDigits(ss);
    var hs := IntToString(h);
    var ms := PadStart2(IntToString(mm));
    var sp := PadStart2(IntToString(ss));
    var f := FormatTime(seconds);
    assert f == hs + ":" + ms + ":" + sp;
    assert f[..|f| - 6] == hs;
    assert f[|f| - 5..|f| - 3] == ms;
    assert f[|f| - 2..] == sp;
  }

  /** Two instances: 90 seconds print as `0:01:30` and one hour, one minute and five seconds as
      `1:01:05`. */
  lemma FormatTimeExamples()
    ensures FormatTime(90.0) == "0:01:30"
    ensures FormatTime(3665.5) == "1:01:05"
  {
    TimeDecomposition(90.0);
    TimeDecomposition(3665.5);
    PaddedTwoDigits(1);
    PaddedTwoDigits(30);
    PaddedTwoDigits(5);
    assert Hours(90.0) == 0 && Minutes(90.0) == 1 && Secs(90.0) == 30;
    assert Hours(3665.5) == 1 && Minutes(3665.5) == 1 && Secs(3665.5) == 5;
  }
}
