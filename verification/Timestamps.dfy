/** The 20-character timestamps, and when sorting them as strings sorts them in time. */
module Timestamps {
  import opened Bytes
  import opened Calendar

  function Pow10(k: nat): (p: nat)
    ensures p > 0
  {
    if k == 0 then 1 else 10 * Pow10(k - 1)
  }

  function Digit(d: nat): char
    requires d < 10
  {
    '0' + d as char
  }

  /** Exactly `width` decimal digits. */
  function Decimal(n: nat, width: nat): (s: string)
    requires n < Pow10(width)
    ensures |s| == width
    decreases width
  {
    if width == 0 then []
    else
      var unit := Pow10(width - 1);
      LeadingDigit(n, unit);
      [Digit(n / unit)] + Decimal(n % unit, width - 1)
  }

  lemma LeadingDigit(n: nat, unit: nat)
    requires unit > 0 && n < 10 * unit
    ensures n / unit < 10
  {
    var q := n / unit;
    assert q * unit <= n;
    if q >= 10 {
      MulGap(q, 9, unit);
    }
  }

  /** How wide `{:0min}` makes `n`: at least `min`, more if it does not fit. */
  function Width(n: nat, min: nat): (w: nat)
    ensures w >= min && n < Pow10(w)
    ensures w > min ==> n >= Pow10(w - 1)
    decreases n - Pow10(min)
  {
    if n < Pow10(min) then min else Width(n, min + 1)
  }

  datatype Moment = Moment(date: Date, hour: nat, minute: nat, second: nat)

  predicate InRange(m: Moment) {
    m.date.year >= 0 && InCalendar(m.date) && m.hour < 24 && m.minute < 60 && m.second < 60
  }

  function MomentOf(secs: nat): (m: Moment)
    ensures InRange(m)
  {
    var days, rem := secs / 86_400, secs % 86_400;
    CivilRoundTrip(days);
    YearsFromEpoch(days);
    Moment(CivilFromDays(days), rem / 3600, (rem % 3600) / 60, rem % 60)
  }

  function Render(m: Moment): string
    requires InRange(m)
  {
    Decimal(m.date.year, Width(m.date.year, 4)) + "-" + RenderRest(m)
  }

  lemma TwoDigits()
    ensures Pow10(2) == 100 && Pow10(4) == 10_000
  {
    assert Pow10(2) == 10 * (10 * Pow10(0));
    assert Pow10(4) == 10 * (10 * Pow10(2));
  }

  function RenderRest(m: Moment): string
    requires InRange(m)
  {
    TwoDigits();
    Decimal(m.date.month, 2) + ("-" + (Decimal(m.date.day, 2) + ("T" + (Decimal(m.hour, 2)
    + (":" + (Decimal(m.minute, 2) + (":" + (Decimal(m.second, 2) + "Z"))))))))
  }

  /** `now_iso` after the clock read. */
  function NowIso(secs: nat): string {
    Render(MomentOf(secs))
  }

  // ----- the text reads back ------------------------------------------------------

  predicate Numeral(s: string) {
    forall i :: 0 <= i < |s| ==> '0' <= s[i] <= '9'
  }

  /** The number a decimal text stands for. */
  function NumberIn(s: string): int {
    if s == [] then 0 else (s[0] as int - '0' as int) * Pow10(|s| - 1) + NumberIn(s[1..])
  }

  /** `s` is the text of `n`. */
  predicate Spells(s: string, n: int) {
    Numeral(s) && NumberIn(s) == n
  }

  lemma {:induction false} DecimalSpells(n: nat, width: nat)
    requires n < Pow10(width)
    ensures Spells(Decimal(n, width), n)
    decreases width
  {
    hide Decimal, Digit, Pow10, NumberIn;
    if width == 0 {
      NoDigits(n);
      NothingSpelt();
    } else {
      var c, rest := Unfold(n, width);
      DecimalSpells(rest, width - 1);
      DigitWorth(c);
      NumberCons(Digit(c), Decimal(rest, width - 1));
    }
  }

  lemma NothingSpelt()
    ensures Spells([], 0)
  {
  }

  lemma DigitWorth(c: nat)
    requires c < 10
    ensures '0' <= Digit(c) <= '9' && Digit(c) as int - '0' as int == c
  {
  }

  lemma NumberCons(d: char, s: string)
    ensures NumberIn([d] + s) == (d as int - '0' as int) * Pow10(|s|) + NumberIn(s)
  {
    hide Pow10;
    var t := [d] + s;
    assert t[1..] == s && |t| - 1 == |s| && t[0] == d;
    assert NumberIn(t) == (t[0] as int - '0' as int) * Pow10(|t| - 1) + NumberIn(t[1..]);
  }

  /** Month to second, each in two digits, with the marks between them. */
  lemma RestSpells(m: Moment)
    requires InRange(m)
    ensures var r := RenderRest(m);
            && |r| == 15 && r[2] == '-' && r[5] == 'T' && r[8] == ':' && r[11] == ':' && r[14] == 'Z'
            && Spells(r[0..2], m.date.month) && Spells(r[3..5], m.date.day)
            && Spells(r[6..8], m.hour) && Spells(r[9..11], m.minute) && Spells(r[12..14], m.second)
  {
    hide Decimal, Spells;
    TwoDigits();
    var r := RenderRest(m);
    var month, day := Decimal(m.date.month, 2), Decimal(m.date.day, 2);
    var hour, minute, second := Decimal(m.hour, 2), Decimal(m.minute, 2), Decimal(m.second, 2);
    DecimalSpells(m.date.month, 2);
    DecimalSpells(m.date.day, 2);
    DecimalSpells(m.hour, 2);
    DecimalSpells(m.minute, 2);
    DecimalSpells(m.second, 2);
    assert r[0..2] == month && r[3..5] == day;
    assert r[6..8] == hour && r[9..11] == minute && r[12..14] == second;
  }

  /**
   The text is the moment: year in at least four digits, then month, day, hour, minute and second in
   two each, with the marks of RFC 3339 between them; and nothing else.
   */
  lemma TimestampSpells(secs: nat)
    ensures var m, t := MomentOf(secs), NowIso(secs);
            var w := |t| - 16;
            && w >= 4 && (w == 4 <==> m.date.year < 10_000) && (w > 4 ==> m.date.year >= Pow10(w - 1))
            && Spells(t[0..w], m.date.year) && t[w] == '-'
            && Spells(t[w + 1..w + 3], m.date.month) && t[w + 3] == '-'
            && Spells(t[w + 4..w + 6], m.date.day) && t[w + 6] == 'T'
            && Spells(t[w + 7..w + 9], m.hour) && t[w + 9] == ':'
            && Spells(t[w + 10..w + 12], m.minute) && t[w + 12] == ':'
            && Spells(t[w + 13..w + 15], m.second) && t[w + 15] == 'Z'
  {
    hide Decimal, Spells, RenderRest, MomentOf, Pow10;
    var m, t := MomentOf(secs), NowIso(secs);
    var w, r := Width(m.date.year, 4), RenderRest(m);
    TwoDigits();
    DecimalSpells(m.date.year, w);
    RestSpells(m);
    WidthFour(m.date.year);
    assert t == Decimal(m.date.year, w) + "-" + r;
    assert t[0..w] == Decimal(m.date.year, w);
    assert t[w + 1..w + 3] == r[0..2] && t[w + 4..w + 6] == r[3..5];
    assert t[w + 7..w + 9] == r[6..8] && t[w + 10..w + 12] == r[9..11] && t[w + 13..w + 15] == r[12..14];
  }

  lemma WidthFour(y: nat)
    ensures Width(y, 4) == 4 <==> y < 10_000
  {
    TwoDigits();
  }

  /** And the moment is the clock reading: the days of the date and the seconds of the day add up to it. */
  lemma MomentExact(secs: nat)
    ensures var m := MomentOf(secs);
            secs == 86_400 * DaysFromCivil(m.date) + 3600 * m.hour + 60 * m.minute + m.second
  {
    hide CivilFromDays, DaysFromCivil;
    CivilRoundTrip(secs / 86_400);
    ClockParts(secs % 86_400);
  }

  // ----- time order -------------------------------------------------------------

  predicate DateBefore(a: Date, b: Date) {
    a.year < b.year || (a.year == b.year && (a.month < b.month || (a.month == b.month && a.day < b.day)))
  }

  lemma {:induction false} DatesAdvance(m: int, n: int)
    requires m < n
    ensures DateBefore(CivilFromDays(m), CivilFromDays(n))
    decreases n - m
  {
    hide CivilFromDays;
    CivilSuccessor(n - 1);
    CivilRoundTrip(n - 1);
    if m == n - 1 {
    } else {
      DatesAdvance(m, n - 1);
    }
  }

  lemma YearsFromEpoch(days: nat)
    ensures CivilFromDays(days).year >= 1970
  {
    hide CivilFromDays;
    Epoch();
    if days > 0 {
      DatesAdvance(0, days);
    }
  }

  predicate Before(a: Moment, b: Moment) {
    || DateBefore(a.date, b.date)
    || (a.date == b.date && (a.hour < b.hour || (a.hour == b.hour &&
          (a.minute < b.minute || (a.minute == b.minute && a.second < b.second)))))
  }

  lemma MomentsAdvance(s: nat, t: nat)
    requires s < t
    ensures Before(MomentOf(s), MomentOf(t))
  {
    hide CivilFromDays;
    if s / 86_400 < t / 86_400 {
      DatesAdvance(s / 86_400, t / 86_400);
    } else {
      ClockAdvances(s % 86_400, t % 86_400);
    }
  }

  lemma ClockAdvances(a: nat, b: nat)
    requires a < b
    ensures a / 3600 < b / 3600 ||
            (a / 3600 == b / 3600 && ((a % 3600) / 60 < (b % 3600) / 60 ||
               ((a % 3600) / 60 == (b % 3600) / 60 && a % 60 < b % 60)))
  {
    ClockParts(a);
    ClockParts(b);
    ClockOrder(a / 3600, (a % 3600) / 60, a % 60, b / 3600, (b % 3600) / 60, b % 60);
  }

  lemma ClockParts(a: nat)
    ensures a == 3600 * (a / 3600) + 60 * ((a % 3600) / 60) + a % 60
    ensures (a % 3600) / 60 < 60
  {
  }

  lemma ClockOrder(h: int, m: int, s: int, h': int, m': int, s': int)
    requires 0 <= m < 60 && 0 <= s < 60 && 0 <= m' < 60 && 0 <= s' < 60
    requires 3600 * h + 60 * m + s < 3600 * h' + 60 * m' + s'
    ensures h < h' || (h == h' && (m < m' || (m == m' && s < s')))
  {
  }

  // ----- string order --------------------------------------------------------------

  /** Rust's order on `str`: byte by byte, a proper prefix first. */
  predicate LexLess(a: string, b: string) {
    b != [] && (a == [] || a[0] < b[0] || (a[0] == b[0] && LexLess(a[1..], b[1..])))
  }

  lemma {:induction false} DecimalOrder(a: nat, b: nat, w: nat, x: string, y: string)
    requires a < Pow10(w) && b < Pow10(w)
    ensures LexLess(Decimal(a, w) + x, Decimal(b, w) + y) <==> a < b || (a == b && LexLess(x, y))
    decreases w
  {
    hide LexLess, Digit;
    if w == 0 {
      assert Decimal(a, w) + x == x && Decimal(b, w) + y == y;
    } else {
      hide Decimal, Pow10;
      var c, p := Unfold(a, w);
      var d, q := Unfold(b, w);
      var s, t := Decimal(p, w - 1) + x, Decimal(q, w - 1) + y;
      assert [Digit(c)] + Decimal(p, w - 1) + x == [Digit(c)] + s;
      assert [Digit(d)] + Decimal(q, w - 1) + y == [Digit(d)] + t;
      LexCons(Digit(c), Digit(d), s, t);
      DigitOrder(c, d);
      DecimalOrder(p, q, w - 1, x, y);
      LeadOrder(c, p, d, q, Pow10(w - 1));
    }
  }

  /** A number as its leading digit and the rest. */
  lemma Unfold(n: nat, w: nat) returns (c: nat, rest: nat)
    requires 0 < w && n < Pow10(w)
    ensures c < 10 && rest < Pow10(w - 1) && n == c * Pow10(w - 1) + rest
    ensures Decimal(n, w) == [Digit(c)] + Decimal(rest, w - 1)
  {
    var unit := Pow10(w - 1);
    LeadingDigit(n, unit);
    c, rest := n / unit, n % unit;
  }

  lemma LeadOrder(c: nat, p: nat, d: nat, q: nat, unit: nat)
    requires p < unit && q < unit
    ensures c * unit + p < d * unit + q <==> c < d || (c == d && p < q)
    ensures c * unit + p == d * unit + q <==> c == d && p == q
  {
    if c < d {
      MulGap(d, c, unit);
    } else if d < c {
      MulGap(c, d, unit);
    }
  }

  lemma LexCons(c: char, d: char, x: string, y: string)
    ensures LexLess([c] + x, [d] + y) <==> c < d || (c == d && LexLess(x, y))
  {
    assert ([c] + x)[1..] == x && ([d] + y)[1..] == y;
  }

  lemma DigitOrder(c: nat, d: nat)
    requires c < 10 && d < 10
    ensures Digit(c) < Digit(d) <==> c < d
    ensures Digit(c) == Digit(d) <==> c == d
    ensures '-' < Digit(c)
  {
  }

  lemma RestOrder(a: Moment, b: Moment)
    requires InRange(a) && InRange(b) && a.date.year == b.date.year
    ensures LexLess(RenderRest(a), RenderRest(b)) <==> Before(a, b)
  {
    hide LexLess, Decimal;
    TwoDigits();
    var a5, b5 := Decimal(a.second, 2) + "Z", Decimal(b.second, 2) + "Z";
    DecimalOrder(a.second, b.second, 2, "Z", "Z");
    Irreflexive("Z");
    LexCons(':', ':', a5, b5);
    var a4, b4 := Decimal(a.minute, 2) + (":" + a5), Decimal(b.minute, 2) + (":" + b5);
    DecimalOrder(a.minute, b.minute, 2, ":" + a5, ":" + b5);
    LexCons(':', ':', a4, b4);
    var a3, b3 := Decimal(a.hour, 2) + (":" + a4), Decimal(b.hour, 2) + (":" + b4);
    DecimalOrder(a.hour, b.hour, 2, ":" + a4, ":" + b4);
    LexCons('T', 'T', a3, b3);
    var a2, b2 := Decimal(a.date.day, 2) + ("T" + a3), Decimal(b.date.day, 2) + ("T" + b3);
    DecimalOrder(a.date.day, b.date.day, 2, "T" + a3, "T" + b3);
    LexCons('-', '-', a2, b2);
    DecimalOrder(a.date.month, b.date.month, 2, "-" + a2, "-" + b2);
  }

  lemma {:induction false} Irreflexive(s: string)
    ensures !LexLess(s, s)
  {
    if s == [] {
    } else {
      Irreflexive(s[1..]);
    }
  }

  // ----- main results ------------------------------------------------------------------

  /** Years of the same printed width compare as numbers, and the rest of the string breaks ties. */
  lemma SameWidthOrder(a: Moment, b: Moment)
    requires InRange(a) && InRange(b) && Width(a.date.year, 4) == Width(b.date.year, 4)
    ensures LexLess(Render(a), Render(b)) <==> Before(a, b)
  {
    hide LexLess, Decimal, RenderRest;
    var w := Width(a.date.year, 4);
    var x, y := "-" + RenderRest(a), "-" + RenderRest(b);
    assert Render(a) == Decimal(a.date.year, w) + x && Render(b) == Decimal(b.date.year, w) + y;
    DecimalOrder(a.date.year, b.date.year, w, x, y);
    LexCons('-', '-', RenderRest(a), RenderRest(b));
    if a.date.year == b.date.year {
      RestOrder(a, b);
    }
  }

  /** The leading `w` of `w + k` digits are the digits of the quotient. */
  lemma {:induction false} DecimalSplit(lead: nat, low: nat, w: nat, k: nat)
    requires lead < Pow10(w) && low < Pow10(k)
    ensures lead * Pow10(k) + low < Pow10(w + k)
    ensures Decimal(lead * Pow10(k) + low, w + k) == Decimal(lead, w) + Decimal(low, k)
    decreases w
  {
    hide Digit, Decimal, Pow10;
    if w == 0 {
      NoDigits(lead);
    } else {
      var c, rest := Unfold(lead, w);
      DecimalSplit(rest, low, w - 1, k);
      SplitStep(c, rest, low, w - 1, k);
      assert [Digit(c)] + (Decimal(rest, w - 1) + Decimal(low, k))
          == [Digit(c)] + Decimal(rest, w - 1) + Decimal(low, k);
    }
  }

  lemma NoDigits(n: nat)
    requires n < Pow10(0)
    ensures n == 0 && Decimal(n, 0) == []
  {
  }

  lemma SplitStep(c: nat, rest: nat, low: nat, w: nat, k: nat)
    requires c < 10 && rest * Pow10(k) + low < Pow10(w + k)
    ensures var n := (c * Pow10(w) + rest) * Pow10(k) + low;
            n < Pow10(w + 1 + k) && Decimal(n, w + 1 + k) == [Digit(c)] + Decimal(rest * Pow10(k) + low, w + k)
  {
    hide Decimal, Digit, Pow10;
    var n := (c * Pow10(w) + rest) * Pow10(k) + low;
    Pow10Sum(w, k);
    Regroup(c, Pow10(w), rest, Pow10(k));
    Refold(n, w + 1 + k, c, rest * Pow10(k) + low);
  }

  lemma Regroup(c: nat, unit: nat, rest: nat, p: nat)
    ensures (c * unit + rest) * p == c * (unit * p) + rest * p
  {
  }

  lemma Refold(n: nat, w: nat, c: nat, rest: nat)
    requires 0 < w && c < 10 && rest < Pow10(w - 1) && n == c * Pow10(w - 1) + rest
    ensures n < Pow10(w) && Decimal(n, w) == [Digit(c)] + Decimal(rest, w - 1)
  {
    var unit := Pow10(w - 1);
    MulGap(10, c, unit);
    DivModUnique(n, unit, c, rest);
  }

  lemma {:induction false} Pow10Sum(a: nat, b: nat)
    ensures Pow10(a + b) == Pow10(a) * Pow10(b)
    decreases a
  {
    if a == 0 {
    } else {
      Pow10Sum(a - 1, b);
      MulAssoc(10, Pow10(a - 1), Pow10(b));
    }
  }

  lemma Quotient(n: nat, a: nat, d: nat) returns (q: nat, r: nat)
    requires d > 0 && n < a * d
    ensures q == n / d && n == q * d + r && r < d && q < a
  {
    q, r := n / d, n % d;
    if q > a {
      MulGap(q, a, d);
    }
  }

  /** A narrower year sorts first exactly when it does not exceed the leading digits of the wider one. */
  lemma WiderYearOrder(a: Moment, b: Moment)
    requires InRange(a) && InRange(b) && Width(a.date.year, 4) < Width(b.date.year, 4)
    ensures var k := Width(b.date.year, 4) - Width(a.date.year, 4);
            LexLess(Render(a), Render(b)) <==> a.date.year <= b.date.year / Pow10(k)
  {
    hide LexLess, Decimal, RenderRest, Digit, Pow10, Width;
    var w := Width(a.date.year, 4);
    var k := Width(b.date.year, 4) - w;
    var lead, low := SplitNumber(b.date.year, w, k);
    var x, tail := "-" + RenderRest(a), Decimal(low, k) + ("-" + RenderRest(b));
    assert Decimal(lead, w) + Decimal(low, k) + "-" + RenderRest(b) == Decimal(lead, w) + tail;
    assert Render(a) == Decimal(a.date.year, w) + x;
    DecimalOrder(a.date.year, lead, w, x, tail);
    DashFirst(RenderRest(a), low, k, "-" + RenderRest(b));
  }

  lemma SplitNumber(n: nat, w: nat, k: nat) returns (lead: nat, low: nat)
    requires n < Pow10(w + k)
    ensures lead < Pow10(w) && low < Pow10(k) && lead == n / Pow10(k)
    ensures Decimal(n, w + k) == Decimal(lead, w) + Decimal(low, k)
  {
    hide Decimal, Pow10;
    Pow10Sum(w, k);
    lead, low := Quotient(n, Pow10(w), Pow10(k));
    DecimalSplit(lead, low, w, k);
  }

  lemma DashFirst(x: string, n: nat, k: nat, y: string)
    requires 0 < k && n < Pow10(k)
    ensures LexLess("-" + x, Decimal(n, k) + y)
  {
    var unit := Pow10(k - 1);
    LeadingDigit(n, unit);
    DigitOrder(n / unit, 0);
    assert Decimal(n, k)[0] == Digit(n / unit);
  }

  /**
   When string order is time order, for any two clock readings: the earlier one's timestamp is the
   smaller string exactly when the years print equally wide, or the earlier year does not exceed the
   leading digits of the later one.
   */
  lemma StringOrder(s: nat, t: nat)
    requires s < t
    ensures var y, z := MomentOf(s).date.year, MomentOf(t).date.year;
            var k := Width(z, 4) - Width(y, 4);
            k >= 0 && (LexLess(NowIso(s), NowIso(t)) <==> k == 0 || y <= z / Pow10(k))
  {
    hide LexLess, Render, MomentOf, Width, Pow10;
    var a, b := MomentOf(s), MomentOf(t);
    MomentsAdvance(s, t);
    WidthMonotone(a.date.year, b.date.year, 4);
    if Width(a.date.year, 4) == Width(b.date.year, 4) {
      SameWidthOrder(a, b);
    } else {
      WiderYearOrder(a, b);
    }
  }

  lemma {:induction false} WidthMonotone(y: nat, z: nat, min: nat)
    requires y <= z
    ensures Width(y, min) <= Width(z, min)
    decreases z - Pow10(min)
  {
    if z < Pow10(min) {
    } else {
      WidthMonotone(y, z, min + 1);
      if y < Pow10(min) {
        assert Width(y, min) == min <= Width(z, min + 1);
      }
    }
  }

  /** Before the year 10000 a timestamp has 20 characters and string order is time order. */
  lemma FourDigitYears(s: nat, t: nat)
    requires s < t && MomentOf(t).date.year < 10_000
    ensures |NowIso(s)| == |NowIso(t)| == 20
    ensures LexLess(NowIso(s), NowIso(t))
  {
    hide LexLess;
    TwoDigits();
    MomentsAdvance(s, t);
    StringOrder(s, t);
  }

  /** One second across the end of the year 9999 the order is lost. */
  lemma FiveDigitYears()
    ensures var s := 253_402_300_799;
            MomentOf(s).date.year == 9999 && !LexLess(NowIso(s), NowIso(s + 1))
  {
    hide LexLess, Render, CivilFromDays;
    var s := 253_402_300_799;
    EndOf9999();
    WidthOf10000();
    StringOrder(s, s + 1);
  }

  lemma EndOf9999()
    ensures CivilFromDays(2_932_896) == Date(9999, 12, 31) && CivilFromDays(2_932_897) == Date(10_000, 1, 1)
  {
    hide CivilFromDays;
    var d := Date(9999, 12, 31);
    assert DaysFromCivil(d) == 2_932_896;
    DaysRoundTrip(d);
    CivilSuccessor(2_932_896);
  }

  lemma WidthOf10000()
    ensures Width(9999, 4) == 4 && Width(10_000, 4) == 5 && Pow10(1) == 10
  {
    TwoDigits();
    assert Pow10(5) == 10 * Pow10(4);
  }

  /** A list of containers sorted by `created_at` as strings, as `ps` sorts it, is in order of creation. */
  lemma PsIsChronological(created: seq<nat>)
    requires forall i :: 0 <= i < |created| ==> MomentOf(created[i]).date.year < 10_000
    requires forall i, j :: 0 <= i < j < |created| ==> !LexLess(NowIso(created[j]), NowIso(created[i]))
    ensures forall i, j :: 0 <= i < j < |created| ==> created[i] <= created[j]
  {
    forall i, j | 0 <= i < j < |created| ensures created[i] <= created[j] {
      if created[j] < created[i] {
        FourDigitYears(created[j], created[i]);
      }
    }
  }
}
