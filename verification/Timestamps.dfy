/** Timestamps stored as text. Every guard of the ledger compares isoformat() strings; here
    the byte order of those strings is shown to be the order of time. */
module Timestamps {
  import opened Calendar

  /** The order of two strings by their first differing character; a proper prefix is less. */
  predicate Before(a: string, b: string) {
    if |b| == 0 then false
    else if |a| == 0 then true
    else if a[0] != b[0] then a[0] < b[0]
    else Before(a[1..], b[1..])
  }

  /** n in decimal with exactly width digits. */
  function Digits(n: nat, width: nat): (s: string)
    ensures |s| == width
    decreases width
  {
    if width == 0 then "" else Digits(n / 10, width - 1) + ["0123456789"[n % 10]]
  }

  function Power10(width: nat): nat {
    if width == 0 then 1 else 10 * Power10(width - 1)
  }

  /** The fraction is absent when it is zero and six digits otherwise; the offset follows. */
  function FractionAndOffset(microsecond: nat): string {
    (if microsecond == 0 then "" else "." + Digits(microsecond, 6)) + "+00:00"
  }

  /** isoformat() of a UTC datetime. */
  function IsoFormat(dt: DateTime): string {
    Digits(dt.year, 4) + "-" + (Digits(dt.month, 2) + "-" + (Digits(dt.day, 2) + "T" +
    (Digits(dt.hour, 2) + ":" + (Digits(dt.minute, 2) + ":" +
    (Digits(dt.second, 2) + FractionAndOffset(dt.microsecond))))))
  }

  lemma TwoDigits(n: nat)
    requires n < 100
    ensures Digits(n, 2) == ["0123456789"[n / 10], "0123456789"[n % 10]]
  {
    var tens := n / 10;
    assert Digits(tens, 1) == Digits(tens / 10, 0) + ["0123456789"[tens % 10]];
    assert Digits(n, 2) == Digits(tens, 1) + ["0123456789"[n % 10]];
  }

  /** Digits by pairs. */
  lemma MoreDigits(n: nat, width: nat)
    ensures Digits(n, width + 2) == Digits(n / 100, width) + Digits(n % 100, 2)
  {
    TwoDigits(n % 100);
    assert n / 10 / 10 == n / 100 && n / 10 % 10 == n % 100 / 10 && n % 10 == n % 100 % 10;
    assert Digits(n, width + 2) == Digits(n / 10, width + 1) + ["0123456789"[n % 10]];
    assert Digits(n / 10, width + 1) == Digits(n / 10 / 10, width) + ["0123456789"[n / 10 % 10]];
  }

  /** A field, its separator and the rest stand in the text from position k on. */
  predicate FieldStands(text: string, k: nat, field: string, separator: char, rest: string) {
    && k + |field| < |text| && text[k..k + |field|] == field && text[k + |field|] == separator
    && text[k + |field| + 1..] == rest
  }

  lemma FieldFollows(text: string, k: nat, field: string, separator: char, rest: string)
    requires k <= |text| && text[k..] == field + [separator] + rest
    ensures FieldStands(text, k, field, separator, rest)
  {
    var tail := text[k..];
    assert tail[..|field|] == field && tail[|field|] == separator && tail[|field| + 1..] == rest;
    assert text[k..k + |field|] == tail[..|field|] && text[k + |field| + 1..] == tail[|field| + 1..];
  }

  lemma TwoFields(text: string, k: nat, a: string, x: char, b: string, y: char, rest: string)
    requires k <= |text| && text[k..] == a + [x] + (b + [y] + rest)
    ensures FieldStands(text, k, a, x, b + [y] + rest) && FieldStands(text, k + |a| + 1, b, y, rest)
  {
    FieldFollows(text, k, a, x, b + [y] + rest);
    FieldFollows(text, k + |a| + 1, b, y, rest);
  }

  /** Five fields of fixed width, and the rest. */
  lemma FiveFields(year: string, month: string, day: string, hour: string, minute: string, rest: string)
    requires |year| == 4 && |month| == |day| == |hour| == 2
    ensures var fromHour := hour + ":" + (minute + ":" + rest);
            var fromDay := day + "T" + fromHour;
            var fromMonth := month + "-" + fromDay;
            var text := year + "-" + fromMonth;
            && FieldStands(text, 0, year, '-', fromMonth) && FieldStands(text, 5, month, '-', fromDay)
            && FieldStands(text, 8, day, 'T', fromHour) && FieldStands(text, 11, hour, ':', minute + ":" + rest)
            && FieldStands(text, 14, minute, ':', rest)
  {
    var fromHour := hour + ":" + (minute + ":" + rest);
    var fromDay := day + "T" + fromHour;
    var fromMonth := month + "-" + fromDay;
    var text := year + "-" + fromMonth;
    assert text[0..] == text;
    TwoFields(text, 0, year, '-', month, '-', fromDay);
    TwoFields(text, 8, day, 'T', hour, ':', minute + ":" + rest);
    FieldFollows(text, 14, minute, ':', rest);
  }

  /** The fields and their separators: 2024-01-31T09:05:07, and then the fraction, if any, and the offset. */
  lemma IsoFormatFields(dt: DateTime) returns (afterYear: string, afterMonth: string, afterDay: string, afterHour: string, afterMinute: string)
    ensures FieldStands(IsoFormat(dt), 0, Digits(dt.year, 4), '-', afterYear)
    ensures FieldStands(IsoFormat(dt), 5, Digits(dt.month, 2), '-', afterMonth)
    ensures FieldStands(IsoFormat(dt), 8, Digits(dt.day, 2), 'T', afterDay)
    ensures FieldStands(IsoFormat(dt), 11, Digits(dt.hour, 2), ':', afterHour)
    ensures FieldStands(IsoFormat(dt), 14, Digits(dt.minute, 2), ':', afterMinute)
    ensures afterMinute == Digits(dt.second, 2) + ((if dt.microsecond == 0 then "" else "." + Digits(dt.microsecond, 6)) + "+00:00")
  {
    afterMinute := Digits(dt.second, 2) + FractionAndOffset(dt.microsecond);
    afterHour := Digits(dt.minute, 2) + ":" + afterMinute;
    afterDay := Digits(dt.hour, 2) + ":" + afterHour;
    afterMonth := Digits(dt.day, 2) + "T" + afterDay;
    afterYear := Digits(dt.month, 2) + "-" + afterMonth;
    FiveFields(Digits(dt.year, 4), Digits(dt.month, 2), Digits(dt.day, 2), Digits(dt.hour, 2), Digits(dt.minute, 2), afterMinute);
  }

  lemma {:induction false} BeforeConcat(p: string, q: string, s: string, t: string)
    requires |p| == |q|
    ensures Before(p + s, q + t) <==> Before(p, q) || (p == q && Before(s, t))
  {
    if |p| == 0 {
      assert p + s == s && q + t == t;
    } else {
      assert (p + s)[1..] == p[1..] + s && (q + t)[1..] == q[1..] + t;
      BeforeConcat(p[1..], q[1..], s, t);
      assert p == [p[0]] + p[1..] && q == [q[0]] + q[1..];
    }
  }

  lemma {:induction false} DigitsOrder(n: nat, m: nat, width: nat)
    requires n < Power10(width) && m < Power10(width)
    ensures Before(Digits(n, width), Digits(m, width)) <==> n < m
    ensures Digits(n, width) == Digits(m, width) <==> n == m
  {
    if width > 0 {
      var p, q := Digits(n / 10, width - 1), Digits(m / 10, width - 1);
      var c, d := "0123456789"[n % 10], "0123456789"[m % 10];
      DigitsOrder(n / 10, m / 10, width - 1);
      BeforeConcat(p, q, [c], [d]);
      assert Before([c], [d]) <==> n % 10 < m % 10;
      assert Digits(n, width) == p + [c] && Digits(m, width) == q + [d];
      if Digits(n, width) == Digits(m, width) {
        assert p == (p + [c])[..width - 1] == (q + [d])[..width - 1] == q;
        assert c == (p + [c])[width - 1] == (q + [d])[width - 1] == d;
      }
    }
  }

  lemma Powers()
    ensures Power10(2) == 100 && Power10(4) == 10_000 && Power10(6) == 1_000_000
  {
    assert Power10(0) == 1;
    assert Power10(1) == 10;
    assert Power10(2) == 100;
    assert Power10(3) == 1_000;
    assert Power10(4) == 10_000;
    assert Power10(5) == 100_000;
  }

  /** One fixed-width field, then the rest. */
  lemma FieldStep(n: nat, m: nat, width: nat, s: string, t: string)
    requires n < Power10(width) && m < Power10(width)
    ensures Before(Digits(n, width) + s, Digits(m, width) + t) <==> n < m || (n == m && Before(s, t))
  {
    DigitsOrder(n, m, width);
    BeforeConcat(Digits(n, width), Digits(m, width), s, t);
  }

  lemma SeparatedFieldStep(n: nat, m: nat, width: nat, separator: string, s: string, t: string)
    requires n < Power10(width) && m < Power10(width)
    ensures Before(Digits(n, width) + separator + s, Digits(m, width) + separator + t)
            <==> n < m || (n == m && Before(s, t))
  {
    assert Digits(n, width) + separator + s == Digits(n, width) + (separator + s);
    assert Digits(m, width) + separator + t == Digits(m, width) + (separator + t);
    FieldStep(n, m, width, separator + s, separator + t);
    BeforeIrreflexive(separator);
    BeforeConcat(separator, separator, s, t);
  }

  lemma {:induction false} BeforeIrreflexive(a: string)
    ensures !Before(a, a)
  {
    if |a| > 0 {
      BeforeIrreflexive(a[1..]);
    }
  }

  /** Byte order is asymmetric, and not being after is transitive. */
  lemma {:induction false} BeforeIsTotal(a: string, b: string, c: string)
    ensures !(Before(a, b) && Before(b, a))
    ensures !Before(b, a) && !Before(c, b) ==> !Before(c, a)
  {
    if |a| > 0 && |b| > 0 && |c| > 0 {
      BeforeIsTotal(a[1..], b[1..], c[1..]);
    } else if |a| > 0 && |b| > 0 {
      BeforeIsTotal(a[1..], b[1..], "");
    }
  }

  /** An absent fraction sorts first because the plus sign sorts before the point. */
  lemma FractionOrder(u: nat, v: nat)
    requires u < 1_000_000 && v < 1_000_000
    ensures Before(FractionAndOffset(u), FractionAndOffset(v)) <==> u < v
  {
    Powers();
    FractionShape(u);
    FractionShape(v);
    var fu, fv := FractionAndOffset(u), FractionAndOffset(v);
    if u == v {
      BeforeIrreflexive(fu);
    } else if u > 0 && v > 0 {
      FieldStep(u, v, 6, "+00:00", "+00:00");
    }
  }

  lemma FractionShape(u: nat)
    requires u < 1_000_000
    ensures var f := FractionAndOffset(u);
            |f| > 0 && if u == 0 then f[0] == '+' else f[0] == '.' && f[1..] == Digits(u, 6) + "+00:00"
  {
    if u > 0 {
      assert FractionAndOffset(u) == "." + (Digits(u, 6) + "+00:00");
    }
  }

  lemma IsoOrderIsFieldOrder(a: DateTime, b: DateTime)
    requires Valid(a) && Valid(b)
    ensures Before(IsoFormat(a), IsoFormat(b)) <==> Earlier(a, b)
  {
    Powers();
    var s6, t6 := FractionAndOffset(a.microsecond), FractionAndOffset(b.microsecond);
    var s5, t5 := Digits(a.second, 2) + s6, Digits(b.second, 2) + t6;
    var s4, t4 := Digits(a.minute, 2) + ":" + s5, Digits(b.minute, 2) + ":" + t5;
    var s3, t3 := Digits(a.hour, 2) + ":" + s4, Digits(b.hour, 2) + ":" + t4;
    var s2, t2 := Digits(a.day, 2) + "T" + s3, Digits(b.day, 2) + "T" + t3;
    var s1, t1 := Digits(a.month, 2) + "-" + s2, Digits(b.month, 2) + "-" + t2;
    FractionOrder(a.microsecond, b.microsecond);
    FieldStep(a.second, b.second, 2, s6, t6);
    SeparatedFieldStep(a.minute, b.minute, 2, ":", s5, t5);
    SeparatedFieldStep(a.hour, b.hour, 2, ":", s4, t4);
    SeparatedFieldStep(a.day, b.day, 2, "T", s3, t3);
    SeparatedFieldStep(a.month, b.month, 2, "-", s2, t2);
    SeparatedFieldStep(a.year, b.year, 4, "-", s1, t1);
  }

  /** Byte order of isoformat() text is time order, and equal text means the same instant, so
      each of <, >, <= and >= on the text decides as it does on the instants. */
  lemma TextOrderIsTimeOrder(a: DateTime, b: DateTime)
    requires Valid(a) && Valid(b)
    ensures Before(IsoFormat(a), IsoFormat(b)) <==> ToInstant(a) < ToInstant(b)
    ensures IsoFormat(a) == IsoFormat(b) <==> ToInstant(a) == ToInstant(b)
  {
    IsoOrderIsFieldOrder(a, b);
    FieldOrderIsTimeOrder(a, b);
    if IsoFormat(a) == IsoFormat(b) {
      BeforeIrreflexive(IsoFormat(a));
      IsoOrderIsFieldOrder(b, a);
      FieldOrderIsTimeOrder(b, a);
    }
  }

  /** The budget query selects by text the records created in the window that holds now. */
  lemma WindowTestOnText(created: DateTime, now: DateTime, period: Period)
    requires Valid(created) && Valid(now)
    ensures !Before(IsoFormat(created), IsoFormat(PeriodStartFields(now, period)))
            <==> PeriodStart(ToInstant(now), period) <= ToInstant(created)
  {
    TextOrderIsTimeOrder(created, PeriodStartFields(now, period));
    PeriodStartAgrees(now, period);
  }
}
