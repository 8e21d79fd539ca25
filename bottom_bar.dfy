/**
 * `formatTime` of src/app/bottomBar.tsx: a playback position in seconds
 * rendered as "MM:SS" or "HH:MM:SS" with two-digit, zero-padded fields.
 */
module BottomBar {
  import opened Base
  import opened JsStrings

  /** `x % m` for a non-negative `x` and positive `m` (JavaScript's remainder). */
  function Rem(x: real, m: real): real
    requires x >= 0.0 && m > 0.0
  {
    x - m * (x / m).Floor as real
  }

  /** `Math.floor(duration / 3600)`: the whole hours in the whole seconds. */
  function Hours(duration: real): (r: int)
    requires duration >= 0.0
    ensures r == duration.Floor / 3600 && r >= 0
  {
    FloorDiv(duration, 3600);
    (duration / 3600.0).Floor
  }

  /** `Math.floor((duration % 3600) / 60)`: the whole minutes left over from the hours. */
  function Minutes(duration: real): (r: int)
    requires duration >= 0.0
    ensures r == (duration.Floor % 3600) / 60 && 0 <= r < 60
  {
    RemFloor(duration, 3600);
    FloorDiv(Rem(duration, 3600.0), 60);
    (Rem(duration, 3600.0) / 60.0).Floor
  }

  /** `Math.floor(duration % 60)`: the whole seconds left over from the minutes. */
  function Seconds(duration: real): (r: int)
    requires duration >= 0.0
    ensures r == duration.Floor % 60 && 0 <= r < 60
  {
    RemFloor(duration, 60);
    Rem(duration, 60.0).Floor
  }

  /** `String(n).padStart(2, "0")`: digits only, two of them below a hundred. */
  function Field(n: nat): (r: string)
    ensures AllDigits(r) && ':' !in r
    ensures n < 100 ==> |r| == 2
  {
    PaddedDigits(Decimal(n), n);
    PadStart(Decimal(n), 2, '0')
  }

  /** Padding the digits of `n` with zeros keeps digits only, two of them below a hundred. */
  lemma PaddedDigits(d: string, n: nat)
    requires d == Decimal(n)
    ensures var s := PadStart(d, 2, '0');
      AllDigits(s) && ':' !in s && (n < 100 ==> |s| == 2)
  {
    DecimalLength(n);
    var s := PadStart(d, 2, '0');
    var k := |s| - |d|;
    forall i | 0 <= i < |s| ensures IsDigit(s[i]) {
      if i >= k {
        assert s[i] == s[k..][i - k] == d[i - k];
      }
    }
    assert ':' !in s by {
      forall i | 0 <= i < |s| ensures s[i] != ':' {
        assert IsDigit(s[i]);
      }
    }
  }

  /** The number a field of digits denotes; `None` for any other text. */
  function FieldValue(s: string): Option<nat> {
    if AllDigits(s) then Some(DigitsValue(s)) else None
  }

  /** A field reads back to its number. */
  lemma FieldReadsBack(n: nat)
    ensures FieldValue(Field(n)) == Some(n)
  {
    DecimalRoundTrip(n);
    var d := Decimal(n);
    var s := Field(n);
    assert s == seq(|s| - |d|, _ => '0') + d;
    LeadingZeros(|s| - |d|, d);
  }

  /**
   * `formatTime(duration)`, as written: with hours but no minutes only the seconds are shown.
   * Whenever the hours are shown, or there are none, the text reads back to the whole seconds.
   */
  function FormatTime(duration: real): (r: string)
    requires duration >= 0.0
    ensures Hours(duration) == 0 || Minutes(duration) != 0 ==> ReadBack(r) == Some(duration.Floor)
  {
    var hours, minutes, seconds := Hours(duration), Minutes(duration), Seconds(duration);
    if hours != 0 && minutes == 0 then Field(seconds)
    else
      ClockOfDuration(duration);
      Clock(hours, minutes, seconds)
  }

  /** "MM:SS" without hours, "HH:MM:SS" with them. */
  function Clock(hours: nat, minutes: nat, seconds: nat): string {
    if hours == 0 then Field(minutes) + ":" + Field(seconds)
    else Field(hours) + ":" + Field(minutes) + ":" + Field(seconds)
  }

  /** Two two-character fields joined by ":" give "AA:BB". */
  lemma TwoLayout(a: string, b: string)
    requires |a| == 2 && |b| == 2
    ensures var r := a + ":" + b; |r| == 5 && r[2] == ':'
  {
  }

  /** Three two-character fields joined by ":" give "AA:BB:CC". */
  lemma ThreeLayout(a: string, b: string, c: string)
    requires |a| == 2 && |b| == 2 && |c| == 2
    ensures var r := a + ":" + b + ":" + c; |r| == 8 && r[2] == ':' && r[5] == ':'
  {
  }

  /**
   * The layout of a clock: "MM:SS" without hours, "HH:MM:SS" below a hundred hours, and
   * three ":"-separated fields from a hundred hours on.
   */
  lemma ClockLayout(hours: nat, minutes: nat, seconds: nat)
    requires minutes < 60 && seconds < 60
    ensures hours == 0 ==> |Clock(hours, minutes, seconds)| == 5 && Clock(hours, minutes, seconds)[2] == ':'
    ensures 0 < hours < 100 ==> var r := Clock(hours, minutes, seconds);
      |r| == 8 && r[2] == ':' && r[5] == ':'
    ensures hours >= 100 ==> |Split(Clock(hours, minutes, seconds), ':')| == 3
  {
    var h, m, s := Field(hours), Field(minutes), Field(seconds);
    if hours == 0 {
      TwoLayout(m, s);
    } else if hours < 100 {
      ThreeLayout(h, m, s);
    } else {
      SplitThree(h, m, s);
    }
  }

  /**
   * The text of `formatTime`: "MM:SS" without hours; "HH:MM:SS" with hours and minutes
   * (three fields from a hundred hours on); a bare "SS" with hours but no minutes.
   */
  lemma FormatTimeLayout(duration: real)
    requires duration >= 0.0
    ensures Hours(duration) == 0 ==> |FormatTime(duration)| == 5 && FormatTime(duration)[2] == ':'
    ensures 0 < Hours(duration) < 100 && Minutes(duration) != 0 ==> var r := FormatTime(duration);
      |r| == 8 && r[2] == ':' && r[5] == ':'
    ensures Hours(duration) >= 100 && Minutes(duration) != 0 ==> |Split(FormatTime(duration), ':')| == 3
    ensures Hours(duration) > 0 && Minutes(duration) == 0 ==> |FormatTime(duration)| == 2 && ':' !in FormatTime(duration)
  {
    ClockLayout(Hours(duration), Minutes(duration), Seconds(duration));
  }

  /** The corrected text: "MM:SS" without hours, "HH:MM:SS" (three fields) whenever there are hours. */
  lemma FormatTimeIntendedLayout(duration: real)
    requires duration >= 0.0
    ensures Hours(duration) == 0 ==> |FormatTimeIntended(duration)| == 5 && FormatTimeIntended(duration)[2] == ':'
    ensures 0 < Hours(duration) < 100 ==> var r := FormatTimeIntended(duration);
      |r| == 8 && r[2] == ':' && r[5] == ':'
    ensures Hours(duration) >= 100 ==> |Split(FormatTimeIntended(duration), ':')| == 3
  {
    ClockLayout(Hours(duration), Minutes(duration), Seconds(duration));
  }

  /** The clock of a duration reads back to its whole seconds. */
  lemma ClockOfDuration(duration: real)
    requires duration >= 0.0
    ensures ReadBack(Clock(Hours(duration), Minutes(duration), Seconds(duration))) == Some(duration.Floor)
  {
    FieldsAreFloors(duration);
    ClockReadsBack(Hours(duration), Minutes(duration), Seconds(duration), duration.Floor);
  }

  lemma ClockReadsBack(hours: nat, minutes: nat, seconds: nat, total: int)
    requires total == 3600 * hours + 60 * minutes + seconds
    ensures ReadBack(Clock(hours, minutes, seconds)) == Some(total)
  {
    var c := Clock(hours, minutes, seconds);
    if hours == 0 {
      assert c == Field(minutes) + ":" + Field(seconds);
      ReadTwo(minutes, seconds);
    } else {
      assert c == Field(hours) + ":" + Field(minutes) + ":" + Field(seconds);
      ReadThree(hours, minutes, seconds);
    }
  }

  /** The floor of `x - k` for a whole `k` is the floor of `x` minus `k`. */
  lemma FloorShift(x: real, k: int)
    ensures (x - k as real).Floor == x.Floor - k
  {
  }

  /** Dividing by a positive whole `m` and flooring agrees with Euclidean division of the floor. */
  lemma FloorDiv(x: real, m: int)
    requires x >= 0.0 && m > 0
    ensures (x / m as real).Floor == x.Floor / m
  {
    var n := x.Floor;
    var q := n / m;
    assert q * m <= n < q * m + m;
    assert (q * m) as real <= x < (q * m + m) as real;
    var y := x / m as real;
    assert y * m as real == x;
    assert q as real * m as real <= y * m as real;
    assert q as real <= y;
    assert y < (q + 1) as real;
  }

  /** `x % m` leaves the remainder of the whole part of `x`, plus its fraction. */
  lemma RemFloor(x: real, m: int)
    requires x >= 0.0 && m > 0
    ensures Rem(x, m as real) >= 0.0
    ensures Rem(x, m as real).Floor == x.Floor % m
  {
    var q := x.Floor / m;
    FloorDiv(x, m);
    assert m as real * q as real == (m * q) as real;
    FloorShift(x, m * q);
  }

  /** Hours, minutes and seconds of a whole number of seconds put it back together. */
  lemma SexagesimalSplit(n: int)
    requires n >= 0
    ensures 0 <= (n % 3600) / 60 < 60 && 0 <= n % 60 < 60 && n / 3600 >= 0
    ensures 3600 * (n / 3600) + 60 * ((n % 3600) / 60) + n % 60 == n
  {
    var h, r := n / 3600, n % 3600;
    var m, s := r / 60, r % 60;
    assert n == 60 * (60 * h + m) + s;
    assert n % 60 == s;
  }

  /** The three fields are those of the whole number of seconds, and they read back to it. */
  lemma FieldsAreFloors(duration: real)
    requires duration >= 0.0
    ensures var n := duration.Floor;
      && Hours(duration) == n / 3600
      && Minutes(duration) == (n % 3600) / 60
      && Seconds(duration) == n % 60
      && 0 <= Minutes(duration) < 60 && 0 <= Seconds(duration) < 60 && Hours(duration) >= 0
      && 3600 * Hours(duration) + 60 * Minutes(duration) + Seconds(duration) == n
  {
    SexagesimalSplit(duration.Floor);
  }

  /** Reads "[[H:]M:]S" back into a number of seconds: the partner of FormatTime. */
  function ReadBack(s: string): Option<int> {
    ReadFields(Split(s, ':'))
  }

  /** One, two or three fields read as seconds, minutes:seconds or hours:minutes:seconds. */
  function ReadFields(f: seq<string>): Option<int> {
    if |f| == 1 then FieldValue(f[0])
    else if |f| == 2 then Shift(FieldValue(f[0]), FieldValue(f[1]))
    else if |f| == 3 then Shift(Shift(FieldValue(f[0]), FieldValue(f[1])), FieldValue(f[2]))
    else None
  }

  /** Appends a base-60 digit: `60 * high + low`. */
  function Shift(high: Option<int>, low: Option<nat>): Option<int> {
    if high.Some? && low.Some? then Some(60 * high.value + low.value) else None
  }

  lemma ReadBackFields(s: string, f: seq<string>)
    requires Split(s, ':') == f
    ensures ReadBack(s) == ReadFields(f)
  {
  }

  lemma SplitTwo(A: string, B: string)
    requires ':' !in A && ':' !in B
    ensures Split(A + ":" + B, ':') == [A, B]
  {
    SplitJoin(A, ':', B);
    SplitNone(B, ':');
  }

  lemma SplitThree(A: string, B: string, C: string)
    requires ':' !in A && ':' !in B && ':' !in C
    ensures Split(A + ":" + B + ":" + C, ':') == [A, B, C]
  {
    var tail := B + [':'] + C;
    assert A + ":" + B + ":" + C == A + [':'] + tail;
    SplitTwo(B, C);
    SplitJoin(A, ':', tail);
  }

  lemma ReadTwoFields(A: string, B: string, a: nat, b: nat)
    requires FieldValue(A) == Some(a) && FieldValue(B) == Some(b)
    requires ':' !in A && ':' !in B
    ensures ReadBack(A + ":" + B) == Some(60 * a + b)
  {
    SplitTwo(A, B);
    ReadBackFields(A + ":" + B, [A, B]);
    assert ReadFields([A, B]) == Shift(FieldValue(A), FieldValue(B));
  }

  lemma ReadThreeFields(A: string, B: string, C: string, a: nat, b: nat, c: nat)
    requires FieldValue(A) == Some(a) && FieldValue(B) == Some(b) && FieldValue(C) == Some(c)
    requires ':' !in A && ':' !in B && ':' !in C
    ensures ReadBack(A + ":" + B + ":" + C) == Some(3600 * a + 60 * b + c)
  {
    SplitThree(A, B, C);
    ReadBackFields(A + ":" + B + ":" + C, [A, B, C]);
    assert ReadFields([A, B, C]) == Shift(Shift(FieldValue(A), FieldValue(B)), FieldValue(C));
  }

  lemma ReadTwo(a: nat, b: nat)
    ensures ReadBack(Field(a) + ":" + Field(b)) == Some(60 * a + b)
  {
    FieldReadsBack(a);
    FieldReadsBack(b);
    ReadTwoFields(Field(a), Field(b), a, b);
  }

  lemma ReadThree(a: nat, b: nat, c: nat)
    ensures ReadBack(Field(a) + ":" + Field(b) + ":" + Field(c)) == Some(3600 * a + 60 * b + c)
  {
    FieldReadsBack(a);
    FieldReadsBack(b);
    FieldReadsBack(c);
    ReadThreeFields(Field(a), Field(b), Field(c), a, b, c);
  }

  /** With hours but zero minutes only the seconds are printed, so the hours are lost. */
  lemma FormatTimeDropsHours(duration: real)
    requires duration >= 0.0
    requires Hours(duration) > 0 && Minutes(duration) == 0
    ensures FormatTime(duration) == Field(Seconds(duration))
    ensures ReadBack(FormatTime(duration)) == Some(Seconds(duration))
    ensures ReadBack(FormatTime(duration)) != Some(duration.Floor)
  {
    FieldsAreFloors(duration);
    FieldReadsBack(Seconds(duration));
    SplitNone(Field(Seconds(duration)), ':');
  }

  lemma FormatTimeExample()
    ensures FormatTime(3605.0) == "05"
  {
    FieldsAreFloors(3605.0);
    assert Decimal(5) == "5";
  }

  /** Fields are never cut: a hundred hours or more print all their three or more digits. */
  lemma FieldWidth(n: nat)
    ensures n >= 100 ==> |Field(n)| == |Decimal(n)| >= 3
  {
    DecimalLength(n);
  }

  /** The evidently intended rendering: "HH:MM:SS" whenever there are hours; it always reads back. */
  function FormatTimeIntended(duration: real): (r: string)
    requires duration >= 0.0
    ensures ReadBack(r) == Some(duration.Floor)
  {
    ClockOfDuration(duration);
    Clock(Hours(duration), Minutes(duration), Seconds(duration))
  }
}
