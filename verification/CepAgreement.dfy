/** The two lookups of a CEP: the freight calculators compare strings, the statistics compare
    the numbers parseInt reads. When do they find the same ranges? */
module CepAgreement {
  import opened Wrappers
  import opened Cep
  import opened Directions
  import opened CodeSequence

  /** A comparison with NaN is false. */
  predicate NumericCovers(d: Direction, cep: string) {
    var c, a, b := ParseInt(cep), ParseInt(d.rangeInicio), ParseInt(d.rangeFim);
    c.Some? && a.Some? && b.Some? && a.value <= c.value <= b.value
  }

  predicate Agree(d: Direction, cep: string) {
    NumericCovers(d, cep) <==> Covers(d, cep)
  }

  predicate HasCeps(d: Direction) {
    IsCep(d.rangeInicio) && IsCep(d.rangeFim)
  }

  function CepOf(n: nat): string {
    PadStart(Decimal(n), 8)
  }

  lemma CepOfReadsBack(n: nat)
    requires n < 100000000
    ensures IsCep(CepOf(n)) && Value(CepOf(n)) == n
  {
    assert PowerOfTen(8) == 100000000;
    DecimalLength(n, 8);
    DecimalReadsBack(n);
    ZerosAhead(Zeros(8 - |Decimal(n)|), Decimal(n));
    if |Decimal(n)| == 8 {
      assert Zeros(0) + Decimal(n) == Decimal(n);
    }
  }

  lemma CepBound(s: string)
    requires IsCep(s)
    ensures Value(s) < 100000000
  {
    ValueBound(s);
    assert PowerOfTen(8) == 100000000;
  }

  // ---- Digits everywhere ----

  /** For eight-digit CEPs and bounds both ways of comparing find the same ranges. */
  lemma NumericIsLexicographic(d: Direction, cep: string)
    requires HasCeps(d) && IsCep(cep)
    ensures Agree(d, cep)
  {
    ParseIntOfCep(cep);
    ParseIntOfCep(d.rangeInicio);
    ParseIntOfCep(d.rangeFim);
    LexicographicIsNumeric(d.rangeInicio, cep);
    LexicographicIsNumeric(cep, d.rangeFim);
  }

  // ---- Any CEP, ranges of digits ----

  /** What is read from the CEP is the number of some eight-digit CEP. */
  predicate ReadsInRange(cep: string) {
    ParseInt(cep).Some? && 0 <= ParseInt(cep).value < 100000000
  }

  predicate SortsInRange(cep: string) {
    Le("00000000", cep) && Le(cep, "99999999")
  }

  lemma EndsOfRange(lowest: string, highest: string)
    requires lowest == "00000000" && highest == "99999999"
    ensures IsCep(lowest) && IsCep(highest)
    ensures forall c :: IsCep(c) ==> Le(lowest, c) && Le(c, highest)
  {
    forall c | IsCep(c) ensures Le(lowest, c) && Le(c, highest) {
      Lowest(lowest, c);
      Highest(c, highest);
    }
  }

  lemma {:induction false} Lowest(zeros: string, c: string)
    requires AllDigits(c) && |zeros| == |c| && forall i :: 0 <= i < |zeros| ==> zeros[i] == '0'
    ensures Le(zeros, c)
  {
    if c != "" {
      Lowest(zeros[1..], c[1..]);
    }
  }

  lemma {:induction false} Highest(c: string, nines: string)
    requires AllDigits(c) && |nines| == |c| && forall i :: 0 <= i < |nines| ==> nines[i] == '9'
    ensures Le(c, nines)
  {
    if c != "" {
      Highest(c[1..], nines[1..]);
    }
  }

  /** Outside both ways no range finds the CEP. */
  lemma NobodyCovers(d: Direction, cep: string)
    requires HasCeps(d) && !ReadsInRange(cep) && !SortsInRange(cep)
    ensures !NumericCovers(d, cep) && !Covers(d, cep)
  {
    ParseIntOfCep(d.rangeInicio);
    ParseIntOfCep(d.rangeFim);
    CepBound(d.rangeFim);
    EndsOfRange("00000000", "99999999");
    if Covers(d, cep) {
      LeTransitive("00000000", d.rangeInicio, cep);
      LeTransitive(cep, d.rangeFim, "99999999");
    }
  }

  /** A CEP that is not eight digits but reads as one: the range of that one alone tells. */
  lemma ReadButNotWritten(cep: string) returns (d: Direction)
    requires ReadsInRange(cep) && !IsCep(cep)
    ensures HasCeps(d) && NumericCovers(d, cep) && !Covers(d, cep)
  {
    var c := CepOf(ParseInt(cep).value);
    CepOfReadsBack(ParseInt(cep).value);
    ParseIntOfCep(c);
    d := Direction(c, c, 0, "");
    if Covers(d, cep) {
      LeAntisymmetric(c, cep);
    }
  }

  /** A CEP that sorts among the eight-digit ones but does not read as one: the full range tells. */
  lemma SortedButNotRead(cep: string) returns (d: Direction)
    requires !ReadsInRange(cep) && SortsInRange(cep)
    ensures HasCeps(d) && !NumericCovers(d, cep) && Covers(d, cep)
  {
    d := Direction("00000000", "99999999", 0, "");
    EndsOfRange("00000000", "99999999");
    ParseIntOfCep(d.rangeInicio);
    ParseIntOfCep(d.rangeFim);
    CepBound(d.rangeFim);
  }

  predicate AgreesEverywhere(cep: string) {
    IsCep(cep) || (!ReadsInRange(cep) && !SortsInRange(cep))
  }

  /** Exactly the CEPs for which the two lookups agree on every range of eight-digit bounds:
      the eight-digit ones, and those out of reach of both. */
  lemma AgreementIff(cep: string)
    ensures (forall d :: HasCeps(d) ==> Agree(d, cep)) <==> AgreesEverywhere(cep)
  {
    if IsCep(cep) {
      forall d | HasCeps(d) ensures Agree(d, cep) {
        NumericIsLexicographic(d, cep);
      }
    } else if ReadsInRange(cep) {
      var d := ReadButNotWritten(cep);
      assert !Agree(d, cep);
    } else if SortsInRange(cep) {
      var d := SortedButNotRead(cep);
      assert !Agree(d, cep);
    } else {
      forall d | HasCeps(d) ensures Agree(d, cep) {
        NobodyCovers(d, cep);
      }
    }
  }

  // ---- A hyphen in the CEP ----

  lemma ValueOfEight(s: string)
    requires IsCep(s)
    ensures 1000 * Value(s[..5]) <= Value(s) < 1000 * Value(s[..5]) + 1000
  {
    ValueSnoc(s[..5], s[5]);
    ValueSnoc(s[..6], s[6]);
    ValueSnoc(s[..7], s[7]);
    assert s[..5] + [s[5]] == s[..6] && s[..6] + [s[6]] == s[..7] && s[..7] + [s[7]] == s;
  }

  lemma HyphenSortsBelow(five: string, rest: string, bound: string)
    requires |five| == 5 && AllDigits(five) && IsCep(bound)
    ensures Le(bound, five + "-" + rest) <==> Value(bound) < 1000 * Value(five)
    ensures Le(five + "-" + rest, bound) <==> 1000 * Value(five) <= Value(bound)
  {
    var head, tail, hyphen := bound[..5], bound[5..], "-" + rest;
    assert bound == head + tail && five + "-" + rest == five + hyphen;
    LeByParts(head, five, tail, hyphen);
    LeByParts(five, head, hyphen, tail);
    assert IsDigit(bound[5]) && tail[0] == bound[5] && hyphen[0] == '-';
    LexicographicIsNumeric(head, five);
    LexicographicIsNumeric(five, head);
    if Value(head) == Value(five) {
      LeAntisymmetric(head, five);
    }
    ValueOfEight(bound);
  }

  /** The number read stops at the hyphen, while the string sorts by all five digits: with
      eight-digit bounds a and b the freight lookup finds the range exactly when
      a < 1000n <= b, the statistics when a <= n <= b. */
  lemma HyphenCompares(d: Direction, five: string, rest: string)
    requires HasCeps(d) && |five| == 5 && AllDigits(five)
    ensures var cep, n := five + "-" + rest, Value(five);
      && (Covers(d, cep) <==> Value(d.rangeInicio) < 1000 * n <= Value(d.rangeFim))
      && (NumericCovers(d, cep) <==> Value(d.rangeInicio) <= n <= Value(d.rangeFim))
  {
    HyphenSortsBelow(five, rest, d.rangeInicio);
    HyphenSortsBelow(five, rest, d.rangeFim);
    assert five + "-" + rest == five + ("-" + rest);
    ParseIntOfDigits(five, "-" + rest);
    ParseIntOfCep(d.rangeInicio);
    ParseIntOfCep(d.rangeFim);
  }

  lemma ReadDigits(five: string)
    requires five == "01310"
    ensures |five| == 5 && AllDigits(five) && Value(five) == 1310
  {
    assert Value("1310") == 1310;
    ZerosAhead("0", "1310");
    assert five == "0" + "1310";
  }

  /** One CEP and range for which they differ; up to the highest CEP they agree. */
  lemma HyphenDisagrees(d: Direction, e: Direction, five: string, rest: string)
    requires d.rangeInicio == e.rangeInicio == CepOf(0) && d.rangeFim == CepOf(9999) && e.rangeFim == CepOf(99999999)
    requires five == "01310" && rest == "100"
    ensures HasCeps(d) && NumericCovers(d, five + "-" + rest) && !Covers(d, five + "-" + rest)
    ensures HasCeps(e) && NumericCovers(e, five + "-" + rest) && Covers(e, five + "-" + rest)
  {
    CepOfReadsBack(0);
    CepOfReadsBack(9999);
    CepOfReadsBack(99999999);
    ReadDigits(five);
    HyphenCompares(d, five, rest);
    HyphenCompares(e, five, rest);
  }

  // ---- Bounds that are not digits ----

  /** The numbers of the eight-digit CEPs a range finds as strings: from the first to before the second. */
  function SortedSpan(d: Direction): (int, int) {
    (Below(d.rangeInicio, 8), AtMost(d.rangeFim, 8))
  }

  function Max(x: int, y: int): int {
    if x < y then y else x
  }

  function Min(x: int, y: int): int {
    if x < y then x else y
  }

  /** And those it finds as numbers. */
  function ReadSpan(d: Direction): (int, int) {
    var a, b := ParseInt(d.rangeInicio), ParseInt(d.rangeFim);
    if a.None? || b.None? then (0, 0) else (Max(a.value, 0), Min(b.value + 1, 100000000))
  }

  predicate SameSpan(x: (int, int), y: (int, int)) {
    x == y || (x.0 >= x.1 && y.0 >= y.1)
  }

  lemma SpansFind(d: Direction, cep: string)
    requires IsCep(cep)
    ensures Covers(d, cep) <==> SortedSpan(d).0 <= Value(cep) < SortedSpan(d).1
    ensures NumericCovers(d, cep) <==> ReadSpan(d).0 <= Value(cep) < ReadSpan(d).1
  {
    FromIsInterval(d.rangeInicio, cep);
    UpToIsInterval(cep, d.rangeFim);
    ParseIntOfCep(cep);
    CepBound(cep);
  }

  lemma SpansDiffer(x: (int, int), y: (int, int), limit: int) returns (n: int)
    requires !SameSpan(x, y) && 0 <= x.0 && 0 <= y.0 && x.1 <= limit && y.1 <= limit
    ensures 0 <= n < limit && (x.0 <= n < x.1 <==> !(y.0 <= n < y.1))
  {
    if x.0 >= x.1 {
      n := y.0;
    } else if y.0 >= y.1 {
      n := x.0;
    } else if x.0 != y.0 {
      n := Min(x.0, y.0);
    } else {
      n := Max(x.1, y.1) - 1;
    }
  }

  /** Exactly the ranges, whatever their bounds, on which the two lookups agree for every
      eight-digit CEP. */
  lemma BoundsAgreeIff(d: Direction)
    ensures (forall cep :: IsCep(cep) ==> Agree(d, cep)) <==> SameSpan(SortedSpan(d), ReadSpan(d))
  {
    CountBounds(d.rangeInicio, 8);
    CountBounds(d.rangeFim, 8);
    assert PowerOfTen(8) == 100000000;
    if SameSpan(SortedSpan(d), ReadSpan(d)) {
      forall cep | IsCep(cep) ensures Agree(d, cep) {
        SpansFind(d, cep);
      }
    } else {
      var n := SpansDiffer(SortedSpan(d), ReadSpan(d), 100000000);
      CepOfReadsBack(n);
      SpansFind(d, CepOf(n));
      assert !Agree(d, CepOf(n));
    }
  }

  lemma FourNines(cep: string)
    requires cep == "00009999"
    ensures IsCep(cep) && Value(cep) == 9999
  {
    assert Value("9999") == 9999;
    ZerosAhead("0000", "9999");
    assert cep == "0000" + "9999";
  }

  lemma ReadBound(bound: string)
    requires bound == "0131-100"
    ensures ParseInt(bound) == Some(131)
  {
    assert Value("131") == 131;
    ZerosAhead("0", "131");
    assert "0" + "131" == "0131";
    ParseIntOfDigits("0131", "-100");
    assert bound == "0131" + "-100";
  }

  /** Bounds that request validation accepts and that break the agreement. */
  lemma HyphenInBound(d: Direction, cep: string)
    requires d.rangeInicio == "00000000" && d.rangeFim == "0131-100" && cep == "00009999"
    ensures |d.rangeInicio| == |d.rangeFim| == 8 && IsCep(cep) && Covers(d, cep) && !NumericCovers(d, cep)
  {
    FourNines(cep);
    ReadBound(d.rangeFim);
    ParseIntOfCep(cep);
    Lowest(d.rangeInicio, cep);
    assert cep[0] == d.rangeFim[0] && cep[1] < d.rangeFim[1];
  }
}
