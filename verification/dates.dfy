/** Dates as the pages handle them: ISO `YYYY-MM-DD` strings compared with the
    string operators. For well-formed dates that order is the calendar order. */
module Dates {
  import opened Text

  /** A ten-character `YYYY-MM-DD` string, as `toISOString().split("T")[0]` and a
      date input produce. Month and day ranges are not checked: the order result
      below holds for any digits. */
  predicate WellFormedDate(s: string)
  {
    && |s| == 10
    && AllDigits(s[..4]) && s[4] == '-'
    && AllDigits(s[5..7]) && s[7] == '-'
    && AllDigits(s[8..])
  }

  function Year(s: string): nat
    requires WellFormedDate(s)
  {
    DigitsValue(s[..4])
  }

  function Month(s: string): nat
    requires WellFormedDate(s)
  {
    DigitsValue(s[5..7])
  }

  function Day(s: string): nat
    requires WellFormedDate(s)
  {
    DigitsValue(s[8..])
  }

  /** Day `a` falls strictly before day `b` on the calendar. */
  predicate CalendarBefore(a: string, b: string)
    requires WellFormedDate(a) && WellFormedDate(b)
  {
    || Year(a) < Year(b)
    || (Year(a) == Year(b) && Month(a) < Month(b))
    || (Year(a) == Year(b) && Month(a) == Month(b) && Day(a) < Day(b))
  }

  /** String order on two well-formed dates compares the year digits, then the
      month digits, then the day digits: the dashes sit at the same places. */
  lemma DateLexFields(a: string, b: string)
    requires WellFormedDate(a) && WellFormedDate(b)
    ensures LexLess(a, b) <==>
      || LexLess(a[..4], b[..4])
      || (a[..4] == b[..4] && LexLess(a[5..7], b[5..7]))
      || (a[..4] == b[..4] && a[5..7] == b[5..7] && LexLess(a[8..], b[8..]))
    ensures a == b <==> a[..4] == b[..4] && a[5..7] == b[5..7] && a[8..] == b[8..]
  {
    var ya, yb := a[..4], b[..4];
    var ma, mb := a[5..7], b[5..7];
    var da, db := a[8..], b[8..];
    assert a == ya + ([a[4]] + (ma + ([a[7]] + da)));
    assert b == yb + ([b[4]] + (mb + ([b[7]] + db)));
    LexLessConcat(ya, [a[4]] + (ma + ([a[7]] + da)), yb, [b[4]] + (mb + ([b[7]] + db)));
    LexLessConcat([a[4]], ma + ([a[7]] + da), [b[4]], mb + ([b[7]] + db));
    LexLessIrreflexive([a[4]]);
    LexLessConcat(ma, [a[7]] + da, mb, [b[7]] + db);
    LexLessConcat([a[7]], da, [b[7]], db);
    LexLessIrreflexive([a[7]]);
  }

  /** Comparing two well-formed date strings with `<` compares the days they name. */
  lemma LexOrderIsCalendarOrder(a: string, b: string)
    requires WellFormedDate(a) && WellFormedDate(b)
    ensures LexLess(a, b) <==> CalendarBefore(a, b)
    ensures a == b <==> !CalendarBefore(a, b) && !CalendarBefore(b, a)
  {
    DateLexFields(a, b);
    DigitsOrder(a[..4], b[..4]);
    DigitsOrder(a[5..7], b[5..7]);
    DigitsOrder(a[8..], b[8..]);
    DigitsEqual(a[..4], b[..4]);
    DigitsEqual(a[5..7], b[5..7]);
    DigitsEqual(a[8..], b[8..]);
  }

  /** `<=` on well-formed date strings: the first day is not after the second. */
  lemma LexAtMostIsCalendarAtMost(a: string, b: string)
    requires WellFormedDate(a) && WellFormedDate(b)
    ensures LexLessEq(a, b) <==> !CalendarBefore(b, a)
  {
    LexOrderIsCalendarOrder(b, a);
  }
}
