/**
 * The time information of one runtime: init and valid timestamps and a
 * forecast lead, each either the wildcard '*' or concrete, plus the custom
 * loop string. Timestamps render as strftime('%Y%m%d%H%M%S').
 */
module Times {
  import opened Common
  import opened Text

  type Year = y: int | 1 <= y <= 9999 witness 1
  type Month = m: int | 1 <= m <= 12 witness 1
  type Day = d: int | 1 <= d <= 31 witness 1
  type Hour = h: int | 0 <= h <= 23
  type Minute = m: int | 0 <= m <= 59
  type Second = s: int | 0 <= s <= 59

  /** A Python datetime, to the second. */
  datatype Timestamp = Timestamp(year: Year, month: Month, day: Day, hour: Hour, minute: Minute, second: Second)

  /** An axis of the time information: '*' or a concrete value. */
  datatype Axis<T> = Wildcard | Concrete(value: T)

  /** A forecast lead, as the relativedelta the time utilities use. */
  datatype Lead = Lead(years: int, months: int, days: int, hours: int, minutes: int, seconds: int)

  datatype TimeInfo = TimeInfo(init: Axis<Timestamp>, valid: Axis<Timestamp>, lead: Axis<Lead>, custom: string)

  /** One strftime field: the number zero-padded to w places. */
  function Field(n: nat, w: nat): string
  {
    ZFill(NatToStr(n), w)
  }

  lemma FieldDigits(n: nat, w: nat)
    requires 1 <= w && n < Pow10(w)
    ensures |Field(n, w)| == w && AllDigits(Field(n, w)) && DigitsValue(Field(n, w)) == n
  {
    PaddedDigits(n, w);
  }

  /** strftime('%Y%m%d%H%M%S'). */
  function StampText(t: Timestamp): (r: string)
    ensures |r| == 14 && AllDigits(r)
  {
    FieldDigits(t.year, 4);
    FieldDigits(t.month, 2);
    FieldDigits(t.day, 2);
    FieldDigits(t.hour, 2);
    FieldDigits(t.minute, 2);
    FieldDigits(t.second, 2);
    Field(t.year, 4) + (Field(t.month, 2) + (Field(t.day, 2)
      + (Field(t.hour, 2) + (Field(t.minute, 2) + Field(t.second, 2)))))
  }

  /** Reads a 14-digit %Y%m%d%H%M%S string back into a timestamp. */
  function ParseStamp(s: string): Option<Timestamp>
  {
    if |s| != 14 || !AllDigits(s) then None
    else
      var t1 := Take(s, 4);
      var t2 := Take(t1.1, 2);
      var t3 := Take(t2.1, 2);
      var t4 := Take(t3.1, 2);
      var t5 := Take(t4.1, 2);
      var y, mo, d, h, mi, se := t1.0, t2.0, t3.0, t4.0, t5.0, DigitsValue(t5.1);
      if 1 <= y <= 9999 && 1 <= mo <= 12 && 1 <= d <= 31 && h <= 23 && mi <= 59 && se <= 59
      then Some(Timestamp(y, mo, d, h, mi, se))
      else None
  }

  /** The value of the first n digits, and the digits after them. */
  function Take(s: string, n: nat): (r: (nat, string))
    requires AllDigits(s) && n <= |s|
    ensures AllDigits(r.1) && r.1 == s[n..]
  {
    assert AllDigits(s[..n]);
    (DigitsValue(s[..n]), s[n..])
  }

  lemma TakeField(a: string, b: string)
    requires AllDigits(a) && AllDigits(b)
    ensures Take(a + b, |a|) == (DigitsValue(a), b)
  {
    assert (a + b)[..|a|] == a;
    assert (a + b)[|a|..] == b;
  }

  /** g is a group of w digits denoting n. */
  predicate GroupOf(g: string, w: nat, n: nat)
  {
    |g| == w && AllDigits(g) && DigitsValue(g) == n
  }

  /** Parsing six digit groups of widths 4, 2, 2, 2, 2, 2 reads each group's value. */
  lemma ParseGroups(t: Timestamp, y: string, mo: string, d: string, h: string, mi: string, se: string)
    requires GroupOf(y, 4, t.year) && GroupOf(mo, 2, t.month) && GroupOf(d, 2, t.day)
    requires GroupOf(h, 2, t.hour) && GroupOf(mi, 2, t.minute) && GroupOf(se, 2, t.second)
    ensures ParseStamp(y + (mo + (d + (h + (mi + se))))) == Some(t)
  {
    var r4 := mi + se;
    var r3 := h + r4;
    var r2 := d + r3;
    var r1 := mo + r2;
    TakeField(y, r1);
    TakeField(mo, r2);
    TakeField(d, r3);
    TakeField(h, r4);
    TakeField(mi, se);
  }

  /** The rendering is exact: parsing the 14 digits recovers the timestamp. */
  lemma StampRoundTrip(t: Timestamp)
    ensures ParseStamp(StampText(t)) == Some(t)
  {
    assert Pow10(2) == 100 && Pow10(4) == 10000;
    FieldDigits(t.year, 4);
    FieldDigits(t.month, 2);
    FieldDigits(t.day, 2);
    FieldDigits(t.hour, 2);
    FieldDigits(t.minute, 2);
    FieldDigits(t.second, 2);
    ParseGroups(t, Field(t.year, 4), Field(t.month, 2), Field(t.day, 2),
                Field(t.hour, 2), Field(t.minute, 2), Field(t.second, 2));
  }

  lemma StampTextInjective(a: Timestamp, b: Timestamp)
    requires StampText(a) == StampText(b)
    ensures a == b
  {
    StampRoundTrip(a);
    StampRoundTrip(b);
  }
}
