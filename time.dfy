/**
 * "HH:MM" clock times as the source reads them: `time.split(':').map(Number)`
 * taken as hours and minutes.
 */
module Time {
  import opened Strings

  /**
   * The first two `:`-separated pieces of `s` are decimal digit strings, so
   * `Number` maps both to integers (`Number('')` is 0). Other inputs give NaN
   * in the source and are not times here.
   */
  predicate IsTime(s: string) {
    var parts := Split(s, ':');
    |parts| >= 2 && AllDigits(parts[0]) && AllDigits(parts[1])
  }

  function Hours(s: string): nat
    requires IsTime(s)
  {
    DigitsValue(Split(s, ':')[0])
  }

  function Minutes(s: string): nat
    requires IsTime(s)
  {
    DigitsValue(Split(s, ':')[1])
  }

  /** `hours * 60 + minutes` */
  function TotalMinutes(s: string): nat
    requires IsTime(s)
  {
    Hours(s) * 60 + Minutes(s)
  }

  /**
   * `${h.toString().padStart(2, '0')}:${m.toString().padStart(2, '0')}`: the
   * zero-padded clock text the source builds for non-negative hours and minutes.
   */
  function ClockText(h: nat, m: nat): string {
    PadStart2(NatToString(h)) + ":" + PadStart2(NatToString(m))
  }

  lemma NoColonInDigits(s: string)
    requires AllDigits(s)
    ensures ':' !in s
  {
  }

  /** Hours and minutes below 100 give the five-character "HH:MM" form. */
  lemma ClockTextShort(h: nat, m: nat)
    requires h < 100 && m < 100
    ensures |ClockText(h, m)| == 5 && ClockText(h, m)[2] == ':'
  {
    assert |NatToString(h)| <= 2 by {
      if h >= 10 { assert NatToString(h) == NatToString(h / 10) + [DigitChar(h % 10)]; }
    }
    assert |NatToString(m)| <= 2 by {
      if m >= 10 { assert NatToString(m) == NatToString(m / 10) + [DigitChar(m % 10)]; }
    }
  }

  /** Clock text reads back as the hours and minutes it was built from. */
  lemma ClockTextParses(h: nat, m: nat)
    ensures IsTime(ClockText(h, m))
    ensures Hours(ClockText(h, m)) == h && Minutes(ClockText(h, m)) == m
    ensures Split(ClockText(h, m), ':') == [PadStart2(NatToString(h)), PadStart2(NatToString(m))]
  {
    var a := PadStart2(NatToString(h));
    var b := PadStart2(NatToString(m));
    PaddedValue(h);
    PaddedValue(m);
    NoColonInDigits(a);
    NoColonInDigits(b);
    SplitFirst(a, ':', b);
    SplitNoSep(b, ':');
    assert ClockText(h, m) == a + [':'] + b;
    assert Split(ClockText(h, m), ':') == [a, b];
  }
}
