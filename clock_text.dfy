/**
 * The three ways the interface writes a number of seconds: the timer's `h:mm:ss` / `m:ss`
 * (components/TimerView.tsx), the break countdown's `m:ss` (components/GuidedBreak.tsx)
 * and the estimate label `Hh Mm` (components/TaskDashboard.tsx, repeated verbatim in
 * components/GuidedBreak.tsx). Each comes with a reader that recovers what the text shows.
 */
module ClockText {
  import opened Text

  /** The hours, minutes and seconds of a count of seconds. */
  function TimeFields(total: nat): (f: (nat, nat, nat))
    ensures f.0 * 3600 + f.1 * 60 + f.2 == total
    ensures f.1 < 60 && f.2 < 60
  {
    (total / 3600, total % 3600 / 60, total % 60)
  }

  /** Every piece is a non-empty run of digits. */
  predicate DigitPieces(parts: seq<string>)
  {
    forall i :: 0 <= i < |parts| ==> parts[i] != [] && AllDigits(parts[i])
  }

  /** A run of digits holds no separator that is not a digit. */
  lemma NoSeparatorInDigits(s: string, sep: char)
    requires AllDigits(s) && !IsDigit(sep)
    ensures sep !in s
  {
    forall i | 0 <= i < |s| ensures s[i] != sep {
      assert IsDigit(s[i]);
    }
  }

  /** Splitting digit pieces joined by a non-digit gives the pieces back. */
  lemma SplitDigitPieces(parts: seq<string>, sep: char)
    requires |parts| >= 1 && DigitPieces(parts) && !IsDigit(sep)
    ensures Split(Join(parts, sep), sep) == parts
  {
    forall i | 0 <= i < |parts| ensures sep !in parts[i] {
      NoSeparatorInDigits(parts[i], sep);
    }
    SplitJoin(parts, sep);
  }

  // ---------------------------------------------------------------- h:mm:ss

  /**
   * formatTime: `h:mm:ss` when there is at least one hour, `m:ss` otherwise. The pieces
   * between the colons are digit runs, three of them exactly when there is an hour. The
   * leading piece is the hours (or, below an hour, the minutes) unpadded; every later
   * piece is two digits reading as its field.
   */
  function FormatTime(total: nat): (r: string)
    ensures |Split(r, ':')| == (if total >= 3600 then 3 else 2)
    ensures DigitPieces(Split(r, ':'))
    ensures Split(r, ':')[0] == DecimalString(if total >= 3600 then total / 3600 else total / 60)
    ensures total >= 3600 ==> |Split(r, ':')[1]| == 2 && PieceValue(Split(r, ':')[1]) == total % 3600 / 60
    ensures |Split(r, ':')[|Split(r, ':')| - 1]| == 2 && PieceValue(Split(r, ':')[|Split(r, ':')| - 1]) == total % 60
  {
    var parts := TimePieces(total);
    SplitDigitPieces(parts, ':');
    Join(parts, ':')
  }

  /** The pieces formatTime puts between its colons. */
  function TimePieces(total: nat): (parts: seq<string>)
    ensures |parts| == (if total >= 3600 then 3 else 2) && DigitPieces(parts)
    ensures parts[0] == DecimalString(if total >= 3600 then total / 3600 else total / 60)
    ensures total >= 3600 ==> |parts[1]| == 2 && PieceValue(parts[1]) == total % 3600 / 60
    ensures |parts[|parts| - 1]| == 2 && PieceValue(parts[|parts| - 1]) == total % 60
  {
    var hrs, mins, secs := total / 3600, total % 3600 / 60, total % 60;
    ClockFields(total);
    TwoDigitsValue(mins);
    TwoDigitsValue(secs);
    if hrs > 0 then
      ThreeDigitPieces(DecimalString(hrs), TwoDigits(mins), TwoDigits(secs));
      [DecimalString(hrs), TwoDigits(mins), TwoDigits(secs)]
    else
      TwoDigitPieces(DecimalString(mins), TwoDigits(secs));
      [DecimalString(mins), TwoDigits(secs)]
  }

  /** The field arithmetic of formatTime: minutes and seconds below 60, an hour from 3600 on. */
  lemma ClockFields(total: nat)
    ensures total % 3600 / 60 < 60 && total % 60 < 60
    ensures total / 3600 > 0 <==> total >= 3600
    ensures total < 3600 ==> total % 3600 / 60 == total / 60
  {
  }

  /** A two-digit field reads back as its value. */
  lemma TwoDigitsValue(n: nat)
    requires n < 100
    ensures |TwoDigits(n)| == 2 && PieceValue(TwoDigits(n)) == n
  {
  }

  lemma TwoDigitPieces(a: string, b: string)
    requires a != [] && AllDigits(a) && b != [] && AllDigits(b)
    ensures DigitPieces([a, b])
  {
  }

  lemma ThreeDigitPieces(a: string, b: string, c: string)
    requires a != [] && AllDigits(a) && b != [] && AllDigits(b) && c != [] && AllDigits(c)
    ensures DigitPieces([a, b, c])
  {
  }

  /** Reading a clock text: the pieces between the colons as base-60 digits. */
  function ReadClock(parts: seq<string>): nat
  {
    if |parts| == 0 then 0
    else ReadClock(parts[..|parts| - 1]) * 60 + PieceValue(parts[|parts| - 1])
  }

  function PieceValue(p: string): nat
  {
    if AllDigits(p) then DecimalValue(p) else 0
  }

  /** Two base-60 pieces read as first * 60 + second. */
  lemma ReadTwo(a: string, b: string)
    ensures ReadClock([a, b]) == PieceValue(a) * 60 + PieceValue(b)
  {
    assert [a, b][..1] == [a];
    assert [a][..0] == [];
    assert ReadClock([a]) == PieceValue(a);
  }

  /** Three base-60 pieces read as (first * 60 + second) * 60 + third. */
  lemma ReadThree(a: string, b: string, c: string)
    ensures ReadClock([a, b, c]) == (PieceValue(a) * 60 + PieceValue(b)) * 60 + PieceValue(c)
  {
    assert [a, b, c][..2] == [a, b];
    ReadTwo(a, b);
  }

  /** The timer text reads back as the count it shows. */
  lemma FormatTimeRoundTrip(total: nat)
    ensures ReadClock(Split(FormatTime(total), ':')) == total
  {
    var f := TimeFields(total);
    assert f == (total / 3600, total % 3600 / 60, total % 60);
    if f.0 > 0 {
      assert TimePieces(total) == [DecimalString(f.0), TwoDigits(f.1), TwoDigits(f.2)];
      ReadHourPieces(f.0, f.1, f.2);
    } else {
      assert TimePieces(total) == [DecimalString(f.1), TwoDigits(f.2)];
      ReadMinutePieces(f.1, f.2);
    }
  }

  /** `h:mm:ss` pieces joined and split again read as h * 3600 + m * 60 + s. */
  lemma ReadHourPieces(h: nat, m: nat, s: nat)
    requires m < 60 && s < 60
    ensures ReadClock(Split(Join([DecimalString(h), TwoDigits(m), TwoDigits(s)], ':'), ':')) == h * 3600 + m * 60 + s
  {
    var parts := [DecimalString(h), TwoDigits(m), TwoDigits(s)];
    ThreeDigitPieces(parts[0], parts[1], parts[2]);
    SplitDigitPieces(parts, ':');
    ReadThree(parts[0], parts[1], parts[2]);
    DecimalRoundTrip(h);
  }

  /** `m:ss` pieces joined and split again read as m * 60 + s. */
  lemma ReadMinutePieces(m: nat, s: nat)
    requires s < 60
    ensures ReadClock(Split(Join([DecimalString(m), TwoDigits(s)], ':'), ':')) == m * 60 + s
  {
    var parts := [DecimalString(m), TwoDigits(s)];
    TwoDigitPieces(parts[0], parts[1]);
    SplitDigitPieces(parts, ':');
    ReadTwo(parts[0], parts[1]);
    DecimalRoundTrip(m);
  }

  // ---------------------------------------------------------------- m:ss

  /**
   * formatBreakTime: the whole minutes unpadded, a colon, and the remaining seconds as two
   * digits.
   */
  function FormatBreakTime(s: nat): (r: string)
    ensures |Split(r, ':')| == 2 && DigitPieces(Split(r, ':'))
    ensures Split(r, ':')[0] == DecimalString(s / 60)
    ensures |Split(r, ':')[1]| == 2 && PieceValue(Split(r, ':')[1]) == s % 60
  {
    var parts := [DecimalString(s / 60), TwoDigits(s % 60)];
    TwoDigitPieces(parts[0], parts[1]);
    SplitDigitPieces(parts, ':');
    Join(parts, ':')
  }

  /** The break countdown reads back as the seconds it shows. */
  lemma FormatBreakTimeRoundTrip(s: nat)
    ensures ReadClock(Split(FormatBreakTime(s), ':')) == s
  {
    ReadMinutePieces(s / 60, s % 60);
  }

  /**
   * The contract of formatBreakTime leaves one text: any text whose pieces are the
   * unpadded minutes and two digits reading as the seconds is the countdown's text.
   */
  lemma BreakTimeDetermined(s: nat, r: string)
    requires |Split(r, ':')| == 2 && Split(r, ':')[0] == DecimalString(s / 60)
    requires |Split(r, ':')[1]| == 2 && AllDigits(Split(r, ':')[1]) && PieceValue(Split(r, ':')[1]) == s % 60
    ensures r == FormatBreakTime(s)
  {
    var t := FormatBreakTime(s);
    PairsEqual(Split(r, ':'), Split(t, ':'));
    SameSplitSameText(r, t, ':');
  }

  /** Two pairs of pieces with the same first piece and equal two-digit second pieces. */
  lemma PairsEqual(p: seq<string>, q: seq<string>)
    requires |p| == 2 && |q| == 2 && p[0] == q[0]
    requires |p[1]| == 2 && AllDigits(p[1]) && |q[1]| == 2 && AllDigits(q[1])
    requires PieceValue(p[1]) == PieceValue(q[1])
    ensures p == q
  {
    TwoDigitsUnique(p[1], q[1]);
  }

  /** A text is fixed by its pieces. */
  lemma SameSplitSameText(r: string, t: string, sep: char)
    requires Split(r, sep) == Split(t, sep)
    ensures r == t
  {
    JoinSplit(r, sep);
    JoinSplit(t, sep);
  }

  /** Two two-digit texts with the same value are the same text. */
  lemma TwoDigitsUnique(a: string, b: string)
    requires |a| == 2 && AllDigits(a) && |b| == 2 && AllDigits(b)
    requires DecimalValue(a) == DecimalValue(b)
    ensures a == b
  {
    TwoDigitValue(a);
    TwoDigitValue(b);
    assert DigitValue(a[0]) == DigitValue(b[0]) && DigitValue(a[1]) == DigitValue(b[1]);
    assert DigitChar(DigitValue(a[0])) == a[0] && DigitChar(DigitValue(b[0])) == b[0];
  }

  /** The value of two digits: ten times the first plus the second. */
  lemma TwoDigitValue(a: string)
    requires |a| == 2 && AllDigits(a)
    ensures DecimalValue(a) == 10 * DigitValue(a[0]) + DigitValue(a[1])
  {
    var first := a[..1];
    assert first[..0] == [] && first[0] == a[0] && a[..|a| - 1] == first;
    assert DecimalValue(first) == DigitValue(a[0]);
  }

  /** Below an hour the timer and the break countdown write the same text. */
  lemma BreakTimeMatchesTimer(s: nat)
    requires s < 3600
    ensures FormatBreakTime(s) == FormatTime(s)
  {
    assert s / 3600 == 0 && s % 3600 == s;
    assert TimePieces(s) == [DecimalString(s / 60), TwoDigits(s % 60)];
  }

  // ---------------------------------------------------------------- Hh Mm

  /**
   * formatDuration: `Hh Mm` when both parts are non-zero, `Hh` for whole hours, `Mm`
   * otherwise (so `0m` under a minute); leftover seconds are dropped. There is an hour
   * piece exactly when there is an hour and a minute piece exactly when there are minutes
   * or no hour; each piece is its field unpadded followed by its unit.
   */
  function FormatDuration(total: nat): (r: string)
    ensures |Split(r, ' ')| == (if total / 3600 > 0 && total % 3600 / 60 > 0 then 2 else 1)
    ensures Split(r, ' ')[0] == if total / 3600 > 0 then DecimalString(total / 3600) + "h"
                                else DecimalString(total % 3600 / 60) + "m"
    ensures |Split(r, ' ')| == 2 ==> Split(r, ' ')[1] == DecimalString(total % 3600 / 60) + "m"
    ensures r == "0m" <==> total < 60
  {
    var h := total / 3600;
    var m := total % 3600 / 60;
    var hs := DecimalString(h) + "h";
    var ms := DecimalString(m) + "m";
    UnitPieceHasNoSpace(h, 'h');
    UnitPieceHasNoSpace(m, 'm');
    assert ms == "0m" <==> m == 0 by {
      if ms == "0m" {
        assert |ms| == 2 && |DecimalString(m)| == 1;
        assert ms[0] == DecimalString(m)[0] == '0';
      }
    }
    if h > 0 && m > 0 then
      SplitJoin([hs, ms], ' ');
      assert Join([hs, ms], ' ') == hs + " " + ms;
      hs + " " + ms
    else if h > 0 then
      SplitWithoutSeparator(hs, ' ');
      assert hs != "0m";
      hs
    else
      SplitWithoutSeparator(ms, ' ');
      ms
  }

  /** A number followed by a unit letter holds no space. */
  lemma UnitPieceHasNoSpace(n: nat, unit: char)
    requires unit != ' '
    ensures ' ' !in DecimalString(n) + [unit]
  {
    NoSeparatorInDigits(DecimalString(n), ' ');
  }

  /** The value of one `Nh` or `Nm` label piece, in seconds. */
  function UnitValue(p: string): nat
  {
    if |p| == 0 then 0
    else PieceValue(p[..|p| - 1]) * (if p[|p| - 1] == 'h' then 3600 else 60)
  }

  /** Reading an estimate label: the sum of its space-separated pieces. */
  function ReadDuration(s: string): nat
  {
    var parts := Split(s, ' ');
    if |parts| == 2 then UnitValue(parts[0]) + UnitValue(parts[1]) else UnitValue(parts[0])
  }

  /** The estimate label reads back as the count rounded down to whole minutes. */
  lemma FormatDurationRoundTrip(total: nat)
    ensures ReadDuration(FormatDuration(total)) == total - total % 60
  {
    var h := total / 3600;
    var m := total % 3600 / 60;
    assert total - total % 60 == h * 3600 + m * 60;
    UnitPieceValue(h, 'h');
    UnitPieceValue(m, 'm');
  }

  /** A number followed by its unit letter reads as that many hours or minutes. */
  lemma UnitPieceValue(n: nat, unit: char)
    ensures UnitValue(DecimalString(n) + [unit]) == n * (if unit == 'h' then 3600 else 60)
  {
    var p := DecimalString(n) + [unit];
    assert p[..|p| - 1] == DecimalString(n);
    DecimalRoundTrip(n);
  }
}
