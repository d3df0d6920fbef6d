/**
 * The sentence appended to the map's container, reporting how many regions
 * and stations the map shows.
 */
module Summary {
  predicate IsDigit(c: char) {
    '0' <= c <= '9'
  }

  predicate AllDigits(s: string) {
    forall i :: 0 <= i < |s| ==> IsDigit(s[i])
  }

  /** A template literal's rendering of a count: decimal, no leading zeros. */
  function Decimal(n: nat): (r: string)
    ensures |r| > 0 && AllDigits(r)
    ensures r[0] == '0' ==> n == 0
  {
    if n < 10 then [('0' as int + n) as char]
    else Decimal(n / 10) + [('0' as int + n % 10) as char]
  }

  /** Reads back a string of decimal digits. */
  function ParseDecimal(s: string): nat
    requires AllDigits(s)
  {
    if s == [] then 0
    else ParseDecimal(s[..|s| - 1]) * 10 + (s[|s| - 1] as int - '0' as int)
  }

  /** Reading back a rendered count gives the count. */
  lemma {:induction false} DecimalRoundTrip(n: nat)
    ensures ParseDecimal(Decimal(n)) == n
  {
    if n >= 10 {
      var d := Decimal(n);
      assert d[..|d| - 1] == Decimal(n / 10);
      DecimalRoundTrip(n / 10);
    } else {
      assert Decimal(n)[..0] == [];
    }
  }

  /**
   * The sentence, for `regions` zone features and `stations` station features:
   * each count can be read back from its place in the text.
   */
  function Sentence(regions: nat, stations: nat): (r: string)
    ensures var a, b := Decimal(regions), Decimal(stations);
      && |r| > 34 + |a| + |b|
      && AllDigits(r[21..21 + |a|]) && ParseDecimal(r[21..21 + |a|]) == regions
      && AllDigits(r[34 + |a|..34 + |a| + |b|]) && ParseDecimal(r[34 + |a|..34 + |a| + |b|]) == stations
  {
    var a, b := Decimal(regions), Decimal(stations);
    // The tail is written as two literals only because the verifier does not
    // unfold string literals longer than about forty characters.
    var head, middle, tail := "The map displays the ", " regions and ",
      " stations of Beryl" + " bike share scheme in West Midlands.";
    FramedSlices(head, a, middle, b, tail);
    DecimalRoundTrip(regions);
    DecimalRoundTrip(stations);
    head + a + middle + b + tail
  }

  /** Where the two pieces sit in `head + a + middle + b + tail`. */
  lemma FramedSlices(head: string, a: string, middle: string, b: string, tail: string)
    ensures var s, i := head + a + middle + b + tail, |head| + |a| + |middle|;
      && |s| == i + |b| + |tail|
      && s[|head|..|head| + |a|] == a && s[i..i + |b|] == b
  {
    var s, i := head + a + middle + b + tail, |head| + |a| + |middle|;
    assert s == (head + a + middle) + b + tail;
    assert s == head + a + (middle + b + tail);
  }

  /** The length of the run of digits that starts `s`. */
  function LeadingDigits(s: string): nat {
    if s != [] && IsDigit(s[0]) then 1 + LeadingDigits(s[1..]) else 0
  }

  /** Digits followed by a non-digit: the run is exactly the digits. */
  lemma {:induction false} LeadingDigitsOf(x: string, y: string)
    requires AllDigits(x) && |y| > 0 && !IsDigit(y[0])
    ensures LeadingDigits(x + y) == |x|
  {
    if x == [] {
      assert x + y == y;
    } else {
      assert (x + y)[1..] == x[1..] + y;
      LeadingDigitsOf(x[1..], y);
    }
  }

  /** A run of digits followed by a non-digit splits in one way only. */
  lemma DigitsSplit(x: string, y: string, x': string, y': string)
    requires AllDigits(x) && AllDigits(x')
    requires |y| > 0 && |y'| > 0 && !IsDigit(y[0]) && !IsDigit(y'[0])
    requires x + y == x' + y'
    ensures x == x' && y == y'
  {
    LeadingDigitsOf(x, y);
    LeadingDigitsOf(x', y');
    assert x == (x + y)[..|x|] && x' == (x' + y')[..|x'|];
    assert y == (x + y)[|x|..] && y' == (x' + y')[|x'|..];
  }

  /** Two digit runs framed by the same text, each followed by a non-digit, are recovered. */
  lemma FramedDigits(head: string, a: string, middle: string, b: string, tail: string, a': string, b': string)
    requires AllDigits(a) && AllDigits(b) && AllDigits(a') && AllDigits(b')
    requires |middle| > 0 && !IsDigit(middle[0]) && |tail| > 0 && !IsDigit(tail[0])
    requires head + a + middle + b + tail == head + a' + middle + b' + tail
    ensures a == a' && b == b'
  {
    var s, s' := head + a + middle + b + tail, head + a' + middle + b' + tail;
    assert s[|head|..] == a + (middle + (b + tail));
    assert s'[|head|..] == a' + (middle + (b' + tail));
    DigitsSplit(a, middle + (b + tail), a', middle + (b' + tail));
    assert (middle + (b + tail))[|middle|..] == b + tail;
    assert (middle + (b' + tail))[|middle|..] == b' + tail;
    DigitsSplit(b, tail, b', tail);
  }

  /** The sentence states both counts: different counts give different sentences. */
  lemma SentenceDeterminesCounts(regions: nat, stations: nat, regions': nat, stations': nat)
    requires Sentence(regions, stations) == Sentence(regions', stations')
    ensures regions == regions' && stations == stations'
  {
    var middle, tail := " regions and ", " stations of Beryl" + " bike share scheme in West Midlands.";
    assert middle[0] == ' ' && tail[0] == ' ';
    assert Sentence(regions, stations) == "The map displays the " + Decimal(regions) + middle + Decimal(stations) + tail;
    assert Sentence(regions', stations') == "The map displays the " + Decimal(regions') + middle + Decimal(stations') + tail;
    FramedDigits("The map displays the ", Decimal(regions), middle, Decimal(stations), tail,
      Decimal(regions'), Decimal(stations'));
    DecimalRoundTrip(regions);
    DecimalRoundTrip(regions');
    DecimalRoundTrip(stations);
    DecimalRoundTrip(stations');
  }
}
