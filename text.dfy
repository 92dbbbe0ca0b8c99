/**
 * The JavaScript string operations the components rely on, stated over `seq<char>`:
 * trim, split/join on one separator character, decimal rendering of a number,
 * padStart and an ASCII upper-casing.
 */
module Text {
  import opened Types

  // ---------------------------------------------------------------- trim

  /** The code points String.prototype.trim removes: white space and line terminators. */
  predicate IsWhiteSpace(c: char)
  {
    || c == ' ' || c == '\t' || c == '\n' || c == '\r'
    || c == '\U{000B}' || c == '\U{000C}' || c == '\U{00A0}' || c == '\U{1680}'
    || ('\U{2000}' <= c <= '\U{200A}')
    || c == '\U{2028}' || c == '\U{2029}' || c == '\U{202F}' || c == '\U{205F}'
    || c == '\U{3000}' || c == '\U{FEFF}'
  }

  predicate AllWhiteSpace(s: string)
  {
    forall i :: 0 <= i < |s| ==> IsWhiteSpace(s[i])
  }

  /** The number of white-space characters at the start of `s`. */
  function LeadingWhiteSpace(s: string): (k: nat)
    ensures k <= |s|
    ensures forall i :: 0 <= i < k ==> IsWhiteSpace(s[i])
    ensures k < |s| ==> !IsWhiteSpace(s[k])
  {
    if |s| == 0 || !IsWhiteSpace(s[0]) then 0
    else
      LeadingWhiteSpace(s[1..]) + 1
  }

  /** The number of white-space characters at the end of `s`. */
  function TrailingWhiteSpace(s: string): (k: nat)
    ensures k <= |s|
    ensures forall i :: |s| - k <= i < |s| ==> IsWhiteSpace(s[i])
    ensures k < |s| ==> !IsWhiteSpace(s[|s| - 1 - k])
  {
    if |s| == 0 || !IsWhiteSpace(s[|s| - 1]) then 0
    else
      TrailingWhiteSpace(s[..|s| - 1]) + 1
  }

  /**
   * s.trim(): `s` without its leading and trailing white space. The result is empty
   * exactly when `s` is all white space; otherwise it starts and ends with a
   * non-white-space character and sits in `s` between two runs of white space.
   */
  function Trim(s: string): (r: string)
    ensures r == [] <==> AllWhiteSpace(s)
    ensures r != [] ==> !IsWhiteSpace(r[0]) && !IsWhiteSpace(r[|r| - 1])
    ensures LeadingWhiteSpace(s) + |r| <= |s|
    ensures r == s[LeadingWhiteSpace(s)..LeadingWhiteSpace(s) + |r|]
    ensures AllWhiteSpace(s[LeadingWhiteSpace(s) + |r|..])
  {
    var lead := LeadingWhiteSpace(s);
    if lead == |s| then
      []
    else
      var trail := TrailingWhiteSpace(s);
      assert |s| - trail > lead;
      assert !IsWhiteSpace(s[lead]);
      s[lead..|s| - trail]
  }

  /**
   * Trim is determined by the shape of its result: padding a string that neither starts
   * nor ends with white space by white space on both sides, then trimming, gives it back.
   */
  lemma {:induction false} TrimOfPadded(a: string, t: string, b: string)
    requires AllWhiteSpace(a) && AllWhiteSpace(b)
    requires t != [] ==> !IsWhiteSpace(t[0]) && !IsWhiteSpace(t[|t| - 1])
    ensures Trim(a + t + b) == t
  {
    var s := a + t + b;
    if t == [] {
      assert s == a + b;
      WhiteSpaceConcat(a, b);
    } else {
      assert s == a + (t + b);
      LeadingOfPadded(a, t + b);
      assert (a + t)[|a + t| - 1] == t[|t| - 1];
      TrailingOfPadded(a + t, b);
      assert s[|a|..|s| - |b|] == t;
    }
  }

  lemma WhiteSpaceConcat(a: string, b: string)
    requires AllWhiteSpace(a) && AllWhiteSpace(b)
    ensures AllWhiteSpace(a + b)
  {
    forall i | 0 <= i < |a + b| ensures IsWhiteSpace((a + b)[i]) {
      if i < |a| { assert (a + b)[i] == a[i]; } else { assert (a + b)[i] == b[i - |a|]; }
    }
  }

  /** White space followed by a string that starts with a non-white-space character. */
  lemma {:induction false} LeadingOfPadded(a: string, u: string)
    requires AllWhiteSpace(a)
    requires u != [] && !IsWhiteSpace(u[0])
    ensures LeadingWhiteSpace(a + u) == |a|
  {
    if a != [] {
      assert (a + u)[1..] == a[1..] + u;
      LeadingOfPadded(a[1..], u);
    }
  }

  /** A string that ends with a non-white-space character, followed by white space. */
  lemma {:induction false} TrailingOfPadded(u: string, b: string)
    requires AllWhiteSpace(b)
    requires u != [] && !IsWhiteSpace(u[|u| - 1])
    ensures TrailingWhiteSpace(u + b) == |b|
  {
    if b != [] {
      assert (u + b)[..|u + b| - 1] == u + b[..|b| - 1];
      TrailingOfPadded(u, b[..|b| - 1]);
    } else {
      assert u + b == u;
    }
  }

  /** Trimming twice is trimming once. */
  lemma TrimIdempotent(s: string)
    ensures Trim(Trim(s)) == Trim(s)
  {
    var t := Trim(s);
    TrimOfPadded([], t, []);
    assert [] + t + [] == t;
  }

  /**
   * `s.trim() || undefined`: the trimmed text, or absent when nothing but white space is
   * left (an empty string is falsy).
   */
  function TrimmedOrAbsent(s: string): (r: Option<string>)
    ensures r.None? <==> AllWhiteSpace(s)
    ensures r.Some? ==> r.value == Trim(s) && r.value != []
  {
    var t := Trim(s);
    if t == [] then None else Some(t)
  }

  // ---------------------------------------------------------------- split and join

  /** s.split(sep) for a one-character separator; "".split(sep) is [""]. */
  function Split(s: string, sep: char): (parts: seq<string>)
    ensures |parts| >= 1
    ensures forall i :: 0 <= i < |parts| ==> sep !in parts[i]
  {
    if |s| == 0 then [""]
    else
      var rest := Split(s[1..], sep);
      if s[0] == sep then [""] + rest
      else [[s[0]] + rest[0]] + rest[1..]
  }

  /** parts.join(sep). */
  function Join(parts: seq<string>, sep: char): string
    requires |parts| >= 1
  {
    if |parts| == 1 then parts[0] else parts[0] + [sep] + Join(parts[1..], sep)
  }

  /** Joining the pieces of a split with the same separator gives the string back. */
  lemma {:induction false} JoinSplit(s: string, sep: char)
    ensures Join(Split(s, sep), sep) == s
  {
    if |s| > 0 {
      var rest := Split(s[1..], sep);
      JoinSplit(s[1..], sep);
      if s[0] != sep {
        var parts := Split(s, sep);
        assert parts[1..] == rest[1..];
        if |rest| > 1 {
          assert Join(rest, sep) == rest[0] + [sep] + Join(rest[1..], sep);
        }
      }
    }
  }

  /** Splitting a join of separator-free pieces gives the pieces back. */
  lemma {:induction false} SplitJoin(parts: seq<string>, sep: char)
    requires |parts| >= 1
    requires forall i :: 0 <= i < |parts| ==> sep !in parts[i]
    ensures Split(Join(parts, sep), sep) == parts
  {
    if |parts| == 1 {
      SplitWithoutSeparator(parts[0], sep);
    } else {
      var tail := Join(parts[1..], sep);
      SplitJoin(parts[1..], sep);
      SplitPrefix(parts[0], [sep] + tail, sep);
      assert ([sep] + tail)[1..] == tail;
      assert Split([sep] + tail, sep) == [""] + parts[1..];
      assert parts[0] + [sep] + tail == parts[0] + ([sep] + tail);
      assert parts[0] + "" == parts[0];
      assert parts == [parts[0]] + parts[1..];
    }
  }

  lemma {:induction false} SplitWithoutSeparator(s: string, sep: char)
    requires sep !in s
    ensures Split(s, sep) == [s]
  {
    if |s| > 0 {
      assert sep !in s[1..] by { assert forall c :: c in s[1..] ==> c in s; }
      SplitWithoutSeparator(s[1..], sep);
      assert [s[0]] + s[1..] == s;
    }
  }

  /** A separator-free prefix glues onto the first piece of what follows it. */
  lemma {:induction false} SplitPrefix(w: string, u: string, sep: char)
    requires sep !in w
    ensures Split(w + u, sep) == [w + Split(u, sep)[0]] + Split(u, sep)[1..]
  {
    if |w| > 0 {
      assert sep !in w[1..] by { assert forall c :: c in w[1..] ==> c in w; }
      var v, parts := w + u, Split(u, sep);
      assert v[1..] == w[1..] + u;
      SplitPrefix(w[1..], u, sep);
      var rest := Split(v[1..], sep);
      assert rest[0] == w[1..] + parts[0] && rest[1..] == parts[1..];
      assert v[0] == w[0] != sep;
      assert Split(v, sep) == [[v[0]] + rest[0]] + rest[1..];
      assert [w[0]] + (w[1..] + parts[0]) == w + parts[0];
    } else {
      assert w + u == u;
      var parts := Split(u, sep);
      assert w + parts[0] == parts[0];
      assert parts == [parts[0]] + parts[1..];
    }
  }

  /** The last piece of s.split(sep), as `.pop()` returns it. */
  function LastPiece(s: string, sep: char): (r: string)
    ensures sep !in r
    ensures sep !in s ==> r == s
    ensures sep in s ==> exists k :: 0 <= k < |s| && s[k] == sep && r == s[k + 1..]
  {
    var parts := Split(s, sep);
    JoinSplit(s, sep);
    if sep !in s then
      SplitWithoutSeparator(s, sep);
      parts[|parts| - 1]
    else
      LastPieceIsSuffix(parts, sep);
      parts[|parts| - 1]
  }

  lemma {:induction false} LastPieceIsSuffix(parts: seq<string>, sep: char)
    requires |parts| >= 2
    ensures exists k :: 0 <= k < |Join(parts, sep)| && Join(parts, sep)[k] == sep
                        && parts[|parts| - 1] == Join(parts, sep)[k + 1..]
  {
    var s := Join(parts, sep);
    if |parts| == 2 {
      assert parts[1..] == [parts[1]];
      assert Join(parts[1..], sep) == parts[1];
      assert s == parts[0] + [sep] + parts[1];
      var k := |parts[0]|;
      assert s[k] == sep && s[k + 1..] == parts[1];
    } else {
      var rest := parts[1..];
      LastPieceIsSuffix(rest, sep);
      var t := Join(rest, sep);
      var k :| 0 <= k < |t| && t[k] == sep && rest[|rest| - 1] == t[k + 1..];
      var off := |parts[0]| + 1;
      assert s == (parts[0] + [sep]) + t;
      assert s[off + k] == t[k];
      assert s[off + k + 1..] == t[k + 1..];
    }
  }

  /** Whatever comes before it, a separator-free text after the last separator is the last piece. */
  lemma {:induction false} LastPieceAfterSeparator(p: string, e: string, sep: char)
    requires sep !in e
    ensures LastPiece(p + [sep] + e, sep) == e
  {
    SplitEndsWith(p, e, sep);
  }

  lemma {:induction false} SplitEndsWith(p: string, e: string, sep: char)
    requires sep !in e
    ensures |Split(p + [sep] + e, sep)| >= 2
    ensures Split(p + [sep] + e, sep)[|Split(p + [sep] + e, sep)| - 1] == e
  {
    var s := p + [sep] + e;
    if |p| == 0 {
      assert s == [sep] + e && s[1..] == e;
      SplitWithoutSeparator(e, sep);
    } else {
      assert s[1..] == p[1..] + [sep] + e;
      SplitEndsWith(p[1..], e, sep);
    }
  }

  // ---------------------------------------------------------------- numbers as text

  predicate IsDigit(c: char) { '0' <= c <= '9' }

  predicate AllDigits(s: string) { forall i :: 0 <= i < |s| ==> IsDigit(s[i]) }

  function DigitChar(d: nat): (c: char)
    requires d < 10
    ensures IsDigit(c)
  {
    ('0' as int + d) as char
  }

  function DigitValue(c: char): (d: nat)
    requires IsDigit(c)
    ensures d < 10 && DigitChar(d) == c
  {
    c as int - '0' as int
  }

  /** `${n}` for a non-negative integer: its decimal digits, with no leading zero. */
  function DecimalString(n: nat): (r: string)
    ensures |r| >= 1 && AllDigits(r)
    ensures r[0] == '0' ==> n == 0
  {
    if n < 10 then [DigitChar(n)]
    else DecimalString(n / 10) + [DigitChar(n % 10)]
  }

  /** The number a string of decimal digits denotes. */
  function DecimalValue(s: string): nat
    requires AllDigits(s)
  {
    if |s| == 0 then 0 else 10 * DecimalValue(s[..|s| - 1]) + DigitValue(s[|s| - 1])
  }

  /** Reading back the decimal rendering of a number gives the number. */
  lemma {:induction false} DecimalRoundTrip(n: nat)
    ensures DecimalValue(DecimalString(n)) == n
  {
    if n >= 10 {
      var s := DecimalString(n);
      DecimalRoundTrip(n / 10);
      assert s[..|s| - 1] == DecimalString(n / 10);
    }
  }

  /** A leading zero does not change the value of a digit string. */
  lemma {:induction false} LeadingZero(s: string)
    requires AllDigits(s)
    ensures AllDigits("0" + s) && DecimalValue("0" + s) == DecimalValue(s)
  {
    if |s| > 0 {
      var z := "0" + s;
      assert z[..|z| - 1] == "0" + s[..|s| - 1];
      LeadingZero(s[..|s| - 1]);
    }
  }

  /** str.padStart(width, fill) for a one-character fill. */
  function PadStart(s: string, width: nat, fill: char): (r: string)
    ensures |r| == if |s| >= width then |s| else width
    ensures r[|r| - |s|..] == s
    ensures forall i :: 0 <= i < |r| - |s| ==> r[i] == fill
    decreases width - |s|
  {
    if |s| >= width then s else PadStart([fill] + s, width, fill)
  }

  /** n.toString().padStart(2, '0'): two digits for every n below 100, reading back as n. */
  function TwoDigits(n: nat): (r: string)
    requires n < 100
    ensures |r| == 2 && AllDigits(r) && DecimalValue(r) == n
  {
    var r := PadStart(DecimalString(n), 2, '0');
    DecimalRoundTrip(n);
    if n < 10 then
      assert DecimalString(n) == [DigitChar(n)];
      assert r == "0" + DecimalString(n);
      LeadingZero(DecimalString(n));
      r
    else
      assert |DecimalString(n)| == 2 by {
        assert DecimalString(n) == DecimalString(n / 10) + [DigitChar(n % 10)];
        assert DecimalString(n / 10) == [DigitChar(n / 10)];
      }
      r
  }

  // ---------------------------------------------------------------- case

  /** toUpperCase on one character, for the ASCII letters. */
  function UpperChar(c: char): (u: char)
    ensures 'a' <= c <= 'z' ==> u as int == c as int - 32
    ensures !('a' <= c <= 'z') ==> u == c
  {
    if 'a' <= c <= 'z' then (c as int - 32) as char else c
  }

  function ToUpper(s: string): (r: string)
    ensures |r| == |s|
    ensures forall i :: 0 <= i < |s| ==> r[i] == UpperChar(s[i])
  {
    seq(|s|, i requires 0 <= i < |s| => UpperChar(s[i]))
  }

  /** str.slice(0, n) for n >= 0. */
  function Prefix<T>(s: seq<T>, n: nat): (r: seq<T>)
    ensures |r| == if n < |s| then n else |s|
    ensures r <= s
  {
    if n < |s| then s[..n] else s
  }
}
