/** Dates written as YYYY-MM-DD: their texts compare as the dates do. */
module Dates {
  import opened Text

  datatype Date = Date(year: nat, month: nat, day: nat)

  predicate AllDigits(s: string) { forall c <- s :: IsDigit(c) }

  predicate IsDate(s: string) {
    |s| == 10 && s[4] == '-' && s[7] == '-'
    && AllDigits(s[..4]) && AllDigits(s[5..7]) && AllDigits(s[8..10])
  }

  /** A date is four digits, two digits and two digits with dashes between, and nothing else. */
  lemma DatesAreWritten(y: string, m: string, d: string, s: string)
    ensures AllDigits(y) && AllDigits(m) && AllDigits(d) && |y| == 4 && |m| == |d| == 2 ==>
              IsDate(y + "-" + m + "-" + d)
    ensures IsDate(s) ==>
              && AllDigits(s[..4]) && AllDigits(s[5..7]) && AllDigits(s[8..10])
              && s == s[..4] + "-" + s[5..7] + "-" + s[8..10]
  {
    hide AllDigits;
    if |y| == 4 && |m| == |d| == 2 {
      var t := y + "-" + m + "-" + d;
      assert t[..4] == y && t[5..7] == m && t[8..10] == d;
    }
  }

  function Number(s: string): (n: nat)
    requires AllDigits(s)
  {
    if s == "" then 0
    else
      assert s[|s| - 1] in s;
      10 * Number(s[..|s| - 1]) + (s[|s| - 1] - '0') as nat
  }

  function DateOf(s: string): Date
    requires IsDate(s)
  {
    Date(Number(s[..4]), Number(s[5..7]), Number(s[8..10]))
  }

  /** The order of strings: the first difference decides, and a proper prefix comes first. */
  predicate Less(a: string, b: string) {
    b != "" && (a == "" || a[0] < b[0] || (a[0] == b[0] && Less(a[1..], b[1..])))
  }

  predicate Earlier(a: Date, b: Date) {
    a.year < b.year || (a.year == b.year && (a.month < b.month || (a.month == b.month && a.day < b.day)))
  }

  lemma {:induction false} LessByParts(a: string, b: string, u: string, v: string)
    requires |a| == |b|
    ensures Less(a + u, b + v) <==> Less(a, b) || (a == b && Less(u, v))
  {
    if a == "" {
      assert a + u == u && b + v == v;
    } else {
      assert (a + u)[1..] == a[1..] + u && (b + v)[1..] == b[1..] + v;
      assert a == b <==> a[0] == b[0] && a[1..] == b[1..] by {
        assert a == [a[0]] + a[1..] && b == [b[0]] + b[1..];
      }
      LessByParts(a[1..], b[1..], u, v);
    }
  }

  /** Digit strings of one length compare as the numbers they write, and write different numbers
      when they differ. */
  lemma {:induction false} DigitsCompareAsNumbers(a: string, b: string)
    requires |a| == |b| && AllDigits(a) && AllDigits(b)
    ensures Less(a, b) <==> Number(a) < Number(b)
    ensures a == b <==> Number(a) == Number(b)
  {
    if a != "" {
      var n := |a| - 1;
      assert a == a[..n] + [a[n]] && b == b[..n] + [b[n]];
      assert IsDigit(a[n]) && IsDigit(b[n]);
      assert AllDigits(a[..n]) && AllDigits(b[..n]);
      DigitsCompareAsNumbers(a[..n], b[..n]);
      LessByParts(a[..n], b[..n], [a[n]], [b[n]]);
    }
  }

  lemma DateTextsCompareAsDates(a: string, b: string)
    requires IsDate(a) && IsDate(b)
    ensures Less(a, b) <==> Earlier(DateOf(a), DateOf(b))
    ensures a == b <==> DateOf(a) == DateOf(b)
  {
    hide Less, Number;
    Parts(a);
    Parts(b);
    DigitsCompareAsNumbers(a[..4], b[..4]);
    DigitsCompareAsNumbers(a[5..7], b[5..7]);
    DigitsCompareAsNumbers(a[8..10], b[8..10]);
    LessByParts(a[..4], b[..4], "-" + (a[5..7] + ("-" + a[8..10])), "-" + (b[5..7] + ("-" + b[8..10])));
    SkipDash(a[5..7] + ("-" + a[8..10]), b[5..7] + ("-" + b[8..10]));
    LessByParts(a[5..7], b[5..7], "-" + a[8..10], "-" + b[8..10]);
    SkipDash(a[8..10], b[8..10]);
  }

  lemma Parts(s: string)
    requires IsDate(s)
    ensures s == s[..4] + ("-" + (s[5..7] + ("-" + s[8..10])))
  {
  }

  lemma SkipDash(u: string, v: string)
    ensures Less("-" + u, "-" + v) <==> Less(u, v)
  {
    assert ("-" + u)[1..] == u && ("-" + v)[1..] == v;
  }
}
