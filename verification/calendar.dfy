/** Calendar dates as Python's `datetime.date`, and their ISO form
    `YYYY-MM-DD` (`date.isoformat()`), which names each day's image directory. */
module Calendar {
  import opened Decimal
  import opened Optional

  datatype Date = Date(year: int, month: int, day: int)

  predicate IsLeapYear(y: int) {
    y % 4 == 0 && (y % 100 != 0 || y % 400 == 0)
  }

  function DaysInMonth(y: int, m: int): (n: int)
    requires 1 <= m <= 12
    ensures 28 <= n <= 31
  {
    if m == 2 then (if IsLeapYear(y) then 29 else 28)
    else if m == 4 || m == 6 || m == 9 || m == 11 then 30
    else 31
  }

  /** The dates `datetime.date` can represent (years 1 to 9999). */
  predicate Valid(d: Date) {
    && 1 <= d.year <= 9999
    && 1 <= d.month <= 12
    && 1 <= d.day <= DaysInMonth(d.year, d.month)
  }

  /** Chronological order. */
  predicate Before(a: Date, b: Date) {
    || a.year < b.year
    || (a.year == b.year && a.month < b.month)
    || (a.year == b.year && a.month == b.month && a.day < b.day)
  }

  predicate AtOrBefore(a: Date, b: Date) {
    a == b || Before(a, b)
  }

  lemma BeforeTransitive(a: Date, b: Date, c: Date)
    requires AtOrBefore(a, b) && AtOrBefore(b, c)
    ensures AtOrBefore(a, c)
    ensures Before(a, b) || Before(b, c) ==> Before(a, c)
  {
  }

  /** `date.isoformat()`: `%04d-%02d-%02d`. */
  function Iso(d: Date): (s: string)
    requires Valid(d)
    ensures |s| == 10 && s[4] == '-' && s[7] == '-'
  {
    Digits(d.year, 4) + "-" + Digits(d.month, 2) + "-" + Digits(d.day, 2)
  }

  /** `date.fromisoformat` restricted to the `YYYY-MM-DD` form. */
  function ParseIso(s: string): (r: Option<Date>)
    ensures r.Some? ==> Valid(r.value)
  {
    if |s| == 10 && s[4] == '-' && s[7] == '-'
       && AllDigits(s[..4]) && AllDigits(s[5..7]) && AllDigits(s[8..])
    then
      var d := Date(Value(s[..4]), Value(s[5..7]), Value(s[8..]));
      if Valid(d) then Some(d) else None
    else None
  }

  lemma IsoParts(d: Date)
    requires Valid(d)
    ensures Iso(d)[..4] == Digits(d.year, 4)
    ensures Iso(d)[5..7] == Digits(d.month, 2)
    ensures Iso(d)[8..] == Digits(d.day, 2)
  {
  }

  /** Formatting a date and parsing it back gives the date. */
  lemma IsoRoundTrip(d: Date)
    requires Valid(d)
    ensures ParseIso(Iso(d)) == Some(d)
  {
    IsoParts(d);
    ValueOfDigits(d.year, 4);
    ValueOfDigits(d.month, 2);
    ValueOfDigits(d.day, 2);
  }

  /** Every string `ParseIso` accepts is the ISO form of the date it yields. */
  lemma ParseIsoSound(s: string)
    ensures ParseIso(s).Some? ==> Iso(ParseIso(s).value) == s
  {
    if ParseIso(s).Some? {
      DigitsOfValue(s[..4]);
      DigitsOfValue(s[5..7]);
      DigitsOfValue(s[8..]);
      assert s == s[..4] + "-" + s[5..7] + "-" + s[8..];
    }
  }

  /** Distinct days get distinct directory names. */
  lemma IsoInjective(a: Date, b: Date)
    requires Valid(a) && Valid(b)
    ensures Iso(a) == Iso(b) <==> a == b
  {
    IsoRoundTrip(a);
    IsoRoundTrip(b);
  }

  /** Lexical order on `p + "-" + s` compares the equal-width heads first. */
  lemma LexDashed(p1: string, s1: string, p2: string, s2: string)
    requires |p1| == |p2|
    ensures LexLess(p1 + "-" + s1, p2 + "-" + s2) <==> LexLess(p1, p2) || (p1 == p2 && LexLess(s1, s2))
  {
    assert p1 + "-" + s1 == p1 + ("-" + s1);
    assert p2 + "-" + s2 == p2 + ("-" + s2);
    LexConcat(p1, "-" + s1, p2, "-" + s2);
    LexConcat("-", s1, "-", s2);
  }

  /** Sorting ISO names as strings sorts the days chronologically. */
  lemma IsoOrder(a: Date, b: Date)
    requires Valid(a) && Valid(b)
    ensures LexLess(Iso(a), Iso(b)) <==> Before(a, b)
  {
    var ya, yb := Digits(a.year, 4), Digits(b.year, 4);
    var ma, mb := Digits(a.month, 2), Digits(b.month, 2);
    var da, db := Digits(a.day, 2), Digits(b.day, 2);
    assert Iso(a) == ya + "-" + (ma + "-" + da);
    assert Iso(b) == yb + "-" + (mb + "-" + db);
    LexDashed(ya, ma + "-" + da, yb, mb + "-" + db);
    LexDashed(ma, da, mb, db);
    DigitsOrder(a.year, b.year, 4);
    DigitsOrder(a.month, b.month, 2);
    DigitsOrder(a.day, b.day, 2);
    DigitsInjective(a.year, b.year, 4);
    DigitsInjective(a.month, b.month, 2);
  }
}
