/**
 * The java.lang.String and java.time.LocalDate behaviour the resort code
 * relies on: trim, lower-casing, substring search and the decimal, grouped
 * and ISO-date renderings that appear in the bookings table.
 */
module Text {

  /** `String.trim` strips every character whose code is at most U+0020. */
  predicate IsTrimmable(c: char) {
    c <= ' '
  }

  /** Drops the leading trimmable characters. */
  function TrimStart(s: string): string {
    if s != [] && IsTrimmable(s[0]) then TrimStart(s[1..]) else s
  }

  /** Drops the trailing trimmable characters. */
  function TrimEnd(s: string): string {
    if s != [] && IsTrimmable(s[|s| - 1]) then TrimEnd(s[..|s| - 1]) else s
  }

  /** `TrimStart` keeps a suffix of `s` and drops only trimmable characters, up to the first other one. */
  lemma {:induction false} TrimStartFacts(s: string)
    ensures |TrimStart(s)| <= |s| && TrimStart(s) == s[|s| - |TrimStart(s)|..]
    ensures forall i :: 0 <= i < |s| - |TrimStart(s)| ==> IsTrimmable(s[i])
    ensures TrimStart(s) != [] ==> !IsTrimmable(TrimStart(s)[0])
  {
    if s != [] && IsTrimmable(s[0]) {
      var t := TrimStart(s[1..]);
      TrimStartFacts(s[1..]);
      assert TrimStart(s) == t;
      assert s[1..][|s| - 1 - |t|..] == s[|s| - |t|..];
      forall i | 0 <= i < |s| - |t|
        ensures IsTrimmable(s[i])
      {
        if i > 0 {
          assert s[i] == s[1..][i - 1];
        }
      }
    }
  }

  /** `TrimEnd` keeps a prefix of `s` and drops only trimmable characters, back to the last other one. */
  lemma {:induction false} TrimEndFacts(s: string)
    ensures |TrimEnd(s)| <= |s| && TrimEnd(s) == s[..|TrimEnd(s)|]
    ensures forall i :: |TrimEnd(s)| <= i < |s| ==> IsTrimmable(s[i])
    ensures TrimEnd(s) != [] ==> !IsTrimmable(TrimEnd(s)[|TrimEnd(s)| - 1])
  {
    if s != [] && IsTrimmable(s[|s| - 1]) {
      var t := TrimEnd(s[..|s| - 1]);
      TrimEndFacts(s[..|s| - 1]);
      assert TrimEnd(s) == t;
      assert s[..|s| - 1][..|t|] == s[..|t|];
      forall i | |t| <= i < |s|
        ensures IsTrimmable(s[i])
      {
        if i < |s| - 1 {
          assert s[i] == s[..|s| - 1][i];
        }
      }
    }
  }

  /** `String.trim`: strips the trimmable characters at both ends. */
  function Trim(s: string): string {
    TrimEnd(TrimStart(s))
  }

  /**
   * `Trim(s)` is the piece of `s` that starts where the leading trimmable
   * characters end; every character of `s` outside that piece is
   * trimmable, and the piece neither starts nor ends with a trimmable
   * character. It is empty exactly when every character of `s` is
   * trimmable.
   */
  lemma TrimFacts(s: string)
    ensures OccursAt(s, Trim(s), |s| - |TrimStart(s)|)
    ensures forall j :: 0 <= j < |s| && !(|s| - |TrimStart(s)| <= j < |s| - |TrimStart(s)| + |Trim(s)|) ==>
      IsTrimmable(s[j])
    ensures Trim(s) != [] ==> !IsTrimmable(Trim(s)[0]) && !IsTrimmable(Trim(s)[|Trim(s)| - 1])
    ensures Trim(s) == [] <==> forall i :: 0 <= i < |s| ==> IsTrimmable(s[i])
  {
    var u := TrimStart(s);
    var start := |s| - |u|;
    TrimStartFacts(s);
    TrimEndFacts(u);
    assert OccursAt(s, Trim(s), start);
    forall j | start + |Trim(s)| <= j < |s|
      ensures IsTrimmable(s[j])
    {
      assert s[j] == u[j - start];
    }
  }

  /** `s.trim().isEmpty()`. */
  predicate IsBlank(s: string) {
    Trim(s) == []
  }

  /** `Character.toLowerCase`, on the ASCII letters only. */
  function LowerChar(c: char): char {
    if 'A' <= c <= 'Z' then (c as int + 32) as char else c
  }

  /** `String.toLowerCase`, on the ASCII letters only. */
  function Lower(s: string): string {
    seq(|s|, i requires 0 <= i < |s| => LowerChar(s[i]))
  }

  /** `sub` occurs in `s` starting at index `i`. */
  predicate OccursAt(s: string, sub: string, i: int) {
    0 <= i <= |s| - |sub| && s[i..i + |sub|] == sub
  }

  /** `String.contains`: `sub` occurs somewhere in `s`. */
  predicate Contains(s: string, sub: string) {
    exists i | 0 <= i <= |s| - |sub| :: OccursAt(s, sub, i)
  }

  function DigitChar(d: int): char
    requires 0 <= d < 10
  {
    ('0' as int + d) as char
  }

  /** The decimal digits of a natural number. */
  function Digits(n: nat): string
    decreases n
  {
    if n < 10 then [DigitChar(n)] else Digits(n / 10) + [DigitChar(n % 10)]
  }

  /** `Long.toString`. */
  function Decimal(n: int): string {
    if n < 0 then "-" + Digits(-n) else Digits(n)
  }

  /** The digits of `n`, left-padded with zeros to `width` characters. */
  function ZeroPadded(n: nat, width: nat): string {
    var d := Digits(n);
    if |d| < width then seq(width - |d|, _ => '0') + d else d
  }

  function GroupedNat(n: nat): string
    decreases n
  {
    if n < 1000 then Digits(n) else GroupedNat(n / 1000) + "," + ZeroPadded(n % 1000, 3)
  }

  /** `String.format("%,d", n)` with comma grouping. */
  function Grouped(n: int): string {
    if n < 0 then "-" + GroupedNat(-n) else GroupedNat(n)
  }

  /** The year part of `LocalDate.toString`. */
  function YearText(y: int): string {
    if -1000 < y < 0 then "-" + ZeroPadded(-y, 4)
    else if 0 <= y < 1000 then ZeroPadded(y, 4)
    else if y > 9999 then "+" + Decimal(y)
    else Decimal(y)
  }

  /** A month or day of month, at least two digits. */
  function TwoDigits(n: int): string {
    if 0 <= n < 10 then "0" + Digits(n) else Decimal(n)
  }

  /**
   * `LocalDate.toString` (ISO yyyy-MM-dd) of the date whose epoch day
   * (days since 1970-01-01) is `day`, by the proleptic Gregorian calendar.
   * Dafny's `/` floors for a positive divisor, so the 400-year era of a date
   * before year 0 comes out right without a correction.
   */
  function DateText(day: int): string {
    var z := day + 719468;
    var era := z / 146097;
    var doe := z - era * 146097;
    var yoe := (doe - doe / 1460 + doe / 36524 - doe / 146096) / 365;
    var doy := doe - (365 * yoe + yoe / 4 - yoe / 100);
    var mp := (5 * doy + 2) / 153;
    var dom := doy - (153 * mp + 2) / 5 + 1;
    var month := if mp < 10 then mp + 3 else mp - 9;
    var year := yoe + era * 400 + (if month <= 2 then 1 else 0);
    YearText(year) + "-" + TwoDigits(month) + "-" + TwoDigits(dom)
  }
}
