/** The order Python's `sorted` puts date keys in: `<` on `str` compares
    code point by code point, and a proper prefix comes first. For ISO-8601
    dates ("YYYY-MM-DD", as `date.isoformat()` writes them) that order is
    the chronological one. */
module DateOrder {
  import opened Decimal

  predicate LexLess(a: string, b: string) {
    if a == [] then b != []
    else if b == [] then false
    else a[0] < b[0] || (a[0] == b[0] && LexLess(a[1..], b[1..]))
  }

  lemma {:induction false} LexLessIrreflexive(a: string)
    ensures !LexLess(a, a)
  {
    if a != [] {
      LexLessIrreflexive(a[1..]);
    }
  }

  lemma {:induction false} LexLessTransitive(a: string, b: string, c: string)
    requires LexLess(a, b) && LexLess(b, c)
    ensures LexLess(a, c)
  {
    if a != [] && b != [] && c != [] && a[0] == b[0] == c[0] {
      LexLessTransitive(a[1..], b[1..], c[1..]);
    }
  }

  /** Any two different strings are ordered one way or the other. */
  lemma {:induction false} LexLessTotal(a: string, b: string)
    ensures a == b || LexLess(a, b) || LexLess(b, a)
  {
    if a != [] && b != [] && a[0] == b[0] {
      LexLessTotal(a[1..], b[1..]);
      if a[1..] == b[1..] {
        assert a == [a[0]] + a[1..] && b == [b[0]] + b[1..];
      }
    }
  }

  /** Comparing two strings that start with equally long parts: the first
      parts decide, unless they are equal. */
  lemma {:induction false} LexLessConcat(p: string, q: string, s: string, t: string)
    requires |p| == |q|
    ensures LexLess(p + s, q + t) <==> LexLess(p, q) || (p == q && LexLess(s, t))
  {
    if p == [] {
      assert p + s == s && q + t == t;
    } else {
      assert (p + s)[0] == p[0] && (q + t)[0] == q[0];
      assert (p + s)[1..] == p[1..] + s && (q + t)[1..] == q[1..] + t;
      LexLessConcat(p[1..], q[1..], s, t);
      assert p == q <==> p[0] == q[0] && p[1..] == q[1..] by {
        if p[0] == q[0] && p[1..] == q[1..] {
          assert p == [p[0]] + p[1..] && q == [q[0]] + q[1..];
        }
      }
      LexLessIrreflexive(p[1..]);
    }
  }

  /** On digit strings of one length, the string order is the numeric order. */
  lemma {:induction false} DigitsOrderIsNumeric(a: string, b: string)
    requires |a| == |b| && AllDigits(a) && AllDigits(b)
    ensures LexLess(a, b) <==> DecimalValue(a) < DecimalValue(b)
    decreases |a|
  {
    if a != [] {
      var n := |a| - 1;
      var a', b' := a[..n], b[..n];
      assert a == a' + [a[n]] && b == b' + [b[n]];
      LexLessConcat(a', b', [a[n]], [b[n]]);
      assert LexLess([a[n]], [b[n]]) <==> a[n] < b[n];
      DigitsOrderIsNumeric(a', b');
      DigitsOrderIsNumeric(b', a');
      LexLessTotal(a', b');
      LexLessIrreflexive(a');
    }
  }

  /** Digit strings of one length are equal exactly when their values are. */
  lemma DigitsEqualIffSameValue(a: string, b: string)
    requires |a| == |b| && AllDigits(a) && AllDigits(b)
    ensures a == b <==> DecimalValue(a) == DecimalValue(b)
  {
  }

  predicate IsIsoDate(s: string) {
    |s| == 10 && s[4] == '-' && s[7] == '-' &&
    AllDigits(s[..4]) && AllDigits(s[5..7]) && AllDigits(s[8..])
  }

  function Year(s: string): nat requires IsIsoDate(s) { DecimalValue(s[..4]) }
  function Month(s: string): nat requires IsIsoDate(s) { DecimalValue(s[5..7]) }
  function Day(s: string): nat requires IsIsoDate(s) { DecimalValue(s[8..]) }

  /** Calendar order: by year, then month, then day. */
  predicate ChronologicallyBefore(a: string, b: string)
    requires IsIsoDate(a) && IsIsoDate(b)
  {
    Year(a) < Year(b) ||
    (Year(a) == Year(b) && (Month(a) < Month(b) || (Month(a) == Month(b) && Day(a) < Day(b))))
  }

  /** Two strings that agree on their first character compare as their tails. */
  lemma LexLessSameHead(a: string, b: string)
    requires a != [] && b != [] && a[0] == b[0]
    ensures LexLess(a, b) <==> LexLess(a[1..], b[1..])
  {
  }

  /** Sorting ISO dates as strings sorts them chronologically. */
  lemma IsoDateOrderIsChronological(a: string, b: string)
    requires IsIsoDate(a) && IsIsoDate(b)
    ensures LexLess(a, b) <==> ChronologicallyBefore(a, b)
  {
    assert a == a[..4] + a[4..] && b == b[..4] + b[4..];
    LexLessConcat(a[..4], b[..4], a[4..], b[4..]);
    LexLessSameHead(a[4..], b[4..]);
    assert a[4..][1..] == a[5..] && b[4..][1..] == b[5..];
    assert a[5..] == a[5..7] + a[7..] && b[5..] == b[5..7] + b[7..];
    LexLessConcat(a[5..7], b[5..7], a[7..], b[7..]);
    LexLessSameHead(a[7..], b[7..]);
    assert a[7..][1..] == a[8..] && b[7..][1..] == b[8..];
    DigitsOrderIsNumeric(a[..4], b[..4]);
    DigitsEqualIffSameValue(a[..4], b[..4]);
    DigitsOrderIsNumeric(a[5..7], b[5..7]);
    DigitsEqualIffSameValue(a[5..7], b[5..7]);
    DigitsOrderIsNumeric(a[8..], b[8..]);
  }
}
