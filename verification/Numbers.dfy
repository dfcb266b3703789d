/** Numbers as decimal text: strconv.Itoa and strconv.AppendInt in base 10. */
module Numbers {

  function Digits(n: nat): (r: string)
    ensures r != ""
  {
    if n < 10 then [('0' as int + n) as char] else Digits(n / 10) + [('0' as int + n % 10) as char]
  }

  function Itoa(n: int): string {
    if n < 0 then "-" + Digits(-n) else Digits(n)
  }

  predicate IsDigit(c: char) {
    '0' <= c <= '9'
  }

  lemma {:induction false} DigitsOnly(n: nat)
    ensures forall c | c in Digits(n) :: IsDigit(c)
    decreases n
  {
    if n >= 10 { DigitsOnly(n / 10); }
  }

  lemma DigitsLong(n: nat)
    ensures |Digits(n)| > 1 <==> n >= 10
  {
  }

  lemma {:induction false} DigitsTell(m: nat, n: nat)
    requires Digits(m) == Digits(n)
    ensures m == n
    decreases m
  {
    var s, t := Digits(m), Digits(n);
    DigitsLong(m);
    DigitsLong(n);
    if m >= 10 {
      assert s[..|s| - 1] == Digits(m / 10) && t[..|t| - 1] == Digits(n / 10);
      assert s[|s| - 1] == ('0' as int + m % 10) as char && t[|t| - 1] == ('0' as int + n % 10) as char;
      DigitsTell(m / 10, n / 10);
    } else {
      assert s[0] == t[0];
    }
  }

  /** What is before the first '-'. */
  lemma DashTells(a: string, x: string, b: string, y: string)
    requires '-' !in a && '-' !in b && a + "-" + x == b + "-" + y
    ensures a == b && x == y
  {
    var s := a + "-" + x;
    assert s[|a|] == '-' && s[|b|] == '-';
    assert forall i | 0 <= i < |a| :: s[i] == a[i];
    assert forall i | 0 <= i < |b| :: s[i] == b[i];
    assert s[..|a|] == a && s[..|b|] == b && s[|a| + 1..] == x && s[|b| + 1..] == y;
  }

  lemma ItoaStart(n: int)
    ensures Itoa(n) != "" && (n < 0 <==> Itoa(n)[0] == '-')
  {
    if n >= 0 {
      DigitsOnly(n);
      assert Digits(n)[0] in Digits(n);
    }
  }

  /** Two numbers with a dash between them can be told apart, negative ones as well. */
  lemma PairTells(a: int, b: int, c: int, d: int)
    requires Itoa(a) + "-" + Itoa(b) == Itoa(c) + "-" + Itoa(d)
    ensures a == c && b == d
  {
    DigitsOnly(if a < 0 then -a else a);
    DigitsOnly(if c < 0 then -c else c);
    ItoaStart(a);
    ItoaStart(c);
    assert (Itoa(a) + "-" + Itoa(b))[0] == Itoa(a)[0] && (Itoa(c) + "-" + Itoa(d))[0] == Itoa(c)[0];
    hide Digits;
    if a < 0 {
      Unsigned(Digits(-a), Itoa(b), Digits(-c), Itoa(d));
      DashTells(Digits(-a), Itoa(b), Digits(-c), Itoa(d));
      DigitsTell(-a, -c);
    } else {
      DashTells(Digits(a), Itoa(b), Digits(c), Itoa(d));
      DigitsTell(a, c);
    }
    ItoaTells(b, d);
  }

  lemma Unsigned(a: string, x: string, b: string, y: string)
    requires "-" + a + "-" + x == "-" + b + "-" + y
    ensures a + "-" + x == b + "-" + y
  {
    assert ("-" + a + "-" + x)[1..] == a + "-" + x && ("-" + b + "-" + y)[1..] == b + "-" + y;
  }

  lemma ItoaTells(m: int, n: int)
    requires Itoa(m) == Itoa(n)
    ensures m == n
  {
    ItoaStart(m);
    ItoaStart(n);
    hide Digits;
    if m < 0 {
      assert Itoa(m)[1..] == Digits(-m) && Itoa(n)[1..] == Digits(-n);
      DigitsTell(-m, -n);
    } else {
      DigitsTell(m, n);
    }
  }

  lemma ItoaPlain(n: int)
    ensures '#' !in Itoa(n)
  {
    DigitsOnly(if n < 0 then -n else n);
  }
}
