/**
 * The latitude and longitude recognisers of the location fields. Each is a whole-string match
 * of three alternatives: hemisphere letter with degrees and minutes, an optionally signed
 * decimal, or a blank. The recognisers are written out here as predicates, one per piece of
 * the pattern.
 */
module Coordinates {
  import opened Common

  predicate IsDigit(c: char)
  {
    '0' <= c <= '9'
  }

  predicate DigitIn(c: char, lo: char, hi: char)
  {
    lo <= c <= hi
  }

  /** [0-8][0-9][0-5][0-9] */
  predicate Lat0000To8959(s: string)
  {
    |s| == 4 && DigitIn(s[0], '0', '8') && IsDigit(s[1]) && DigitIn(s[2], '0', '5') && IsDigit(s[3])
  }

  /** [NS]([0-8][0-9][0-5][0-9]|9000) */
  predicate DegreeLatitude(s: string)
  {
    |s| >= 1 && (s[0] == 'N' || s[0] == 'S') && (Lat0000To8959(s[1..]) || s[1..] == "9000")
  }

  /** [0-8][0-9]\.[0-9]{2}|90\.00 */
  predicate LatDecimalBody(s: string)
  {
    || (|s| == 5 && DigitIn(s[0], '0', '8') && IsDigit(s[1]) && s[2] == '.' && IsDigit(s[3]) && IsDigit(s[4]))
    || s == "90.00"
  }

  predicate IsSign(c: char)
  {
    c == '+' || c == '-'
  }

  /** [+-]?([0-8][0-9]\.[0-9]{2}|90\.00) */
  predicate DecimalLatitude(s: string)
  {
    LatDecimalBody(s) || (|s| >= 1 && IsSign(s[0]) && LatDecimalBody(s[1..]))
  }

  /** 0?[0-9]{2}[0-5][0-9] */
  predicate Long0000To9959(s: string)
  {
    || (|s| == 4 && IsDigit(s[0]) && IsDigit(s[1]) && DigitIn(s[2], '0', '5') && IsDigit(s[3]))
    || (|s| == 5 && s[0] == '0' && IsDigit(s[1]) && IsDigit(s[2]) && DigitIn(s[3], '0', '5') && IsDigit(s[4]))
  }

  /** 1[0-7][0-9][0-5][0-9] */
  predicate Long10000To17959(s: string)
  {
    |s| == 5 && s[0] == '1' && DigitIn(s[1], '0', '7') && IsDigit(s[2]) && DigitIn(s[3], '0', '5') && IsDigit(s[4])
  }

  /** [EW](0?[0-9]{2}[0-5][0-9]|1[0-7][0-9][0-5][0-9]|18000) */
  predicate DegreeLongitude(s: string)
  {
    |s| >= 1 && (s[0] == 'E' || s[0] == 'W')
    && (Long0000To9959(s[1..]) || Long10000To17959(s[1..]) || s[1..] == "18000")
  }

  /** 0?[0-9]{2}\.[0-9]{2}|1[0-7][0-9]\.[0-9][0-9]|180\.00 */
  predicate LongDecimalBody(s: string)
  {
    || (|s| == 5 && IsDigit(s[0]) && IsDigit(s[1]) && s[2] == '.' && IsDigit(s[3]) && IsDigit(s[4]))
    || (|s| == 6 && s[0] == '0' && IsDigit(s[1]) && IsDigit(s[2]) && s[3] == '.' && IsDigit(s[4]) && IsDigit(s[5]))
    || (|s| == 6 && s[0] == '1' && DigitIn(s[1], '0', '7') && IsDigit(s[2]) && s[3] == '.' && IsDigit(s[4]) && IsDigit(s[5]))
    || s == "180.00"
  }

  /** [+-]?(0?[0-9]{2}\.[0-9]{2}|1[0-7][0-9]\.[0-9][0-9]|180\.00) */
  predicate DecimalLongitude(s: string)
  {
    LongDecimalBody(s) || (|s| >= 1 && IsSign(s[0]) && LongDecimalBody(s[1..]))
  }

  /**
   * The blank alternative as the pattern text has it: '\s*' in a plain string literal is the
   * two characters 's*', so it matches runs of the letter 's'.
   */
  predicate RunOfS(s: string)
  {
    forall k :: 0 <= k < |s| ==> s[k] == 's'
  }

  /** The blank alternative as intended: nothing but whitespace. */
  predicate AllSpace(s: string)
  {
    forall k :: 0 <= k < |s| ==> IsSpace(s[k])
  }

  /** The latitude recogniser as written. */
  predicate LatitudeAsWritten(s: string)
  {
    DegreeLatitude(s) || DecimalLatitude(s) || RunOfS(s)
  }

  /** The longitude recogniser as written. */
  predicate LongitudeAsWritten(s: string)
  {
    DegreeLongitude(s) || DecimalLongitude(s) || RunOfS(s)
  }

  /** The latitude recogniser with the blank alternative matching whitespace. */
  predicate Latitude(s: string)
  {
    DegreeLatitude(s) || DecimalLatitude(s) || AllSpace(s)
  }

  /** The longitude recogniser with the blank alternative matching whitespace. */
  predicate Longitude(s: string)
  {
    DegreeLongitude(s) || DecimalLongitude(s) || AllSpace(s)
  }

  /** The digit character of a number below ten; digit characters compare as their numbers. */
  lemma DigitCharOrder(x: nat, y: nat)
    requires x < 10 && y < 10
    ensures IsDigit(DigitChar(x))
    ensures DigitChar(x) <= DigitChar(y) <==> x <= y
  {
  }

  /** The two digit characters of a number below 100 and the ranges the patterns test. */
  lemma TwoDigitRanges(d: nat)
    requires d < 100
    ensures IsDigit(DigitChar(d / 10)) && IsDigit(DigitChar(d % 10))
    ensures DigitChar(d / 10) <= '8' <==> d <= 89
    ensures DigitChar(d / 10) <= '5' <==> d <= 59
    ensures DigitChar(d / 10) == '9' && DigitChar(d % 10) == '0' <==> d == 90
    ensures DigitChar(d / 10) == '0' && DigitChar(d % 10) == '0' <==> d == 0
  {
    DigitCharOrder(d / 10, 8);
    DigitCharOrder(d / 10, 5);
    DigitCharOrder(d % 10, 0);
  }

  /** The three digit characters of a number from 100 to 999 and the ranges the patterns test. */
  lemma ThreeDigitRanges(d: nat)
    requires 100 <= d < 1000
    ensures IsDigit(DigitChar(d / 100)) && IsDigit(DigitChar(d / 10 % 10)) && IsDigit(DigitChar(d % 10))
    ensures DigitChar(d / 100) != '0'
    ensures DigitChar(d / 100) == '1' && DigitChar(d / 10 % 10) <= '7' <==> d <= 179
    ensures DigitChar(d / 100) == '1' && DigitChar(d / 10 % 10) == '8' && DigitChar(d % 10) == '0' <==> d == 180
  {
    DigitCharOrder(d / 100, 0);
    DigitCharOrder(d / 100, 1);
    DigitCharOrder(1, d / 100);
    DigitCharOrder(d / 10 % 10, 7);
    DigitCharOrder(d / 10 % 10, 8);
    DigitCharOrder(8, d / 10 % 10);
    DigitCharOrder(d % 10, 0);
  }

  /** What the patterns need to know of a two-digit text `t` spelling the number `d`. */
  predicate SpellsTwoDigits(t: string, d: nat)
  {
    && |t| == 2 && IsDigit(t[0]) && IsDigit(t[1])
    && (t[0] <= '8' <==> d <= 89)
    && (t[0] <= '5' <==> d <= 59)
    && (t[0] == '9' && t[1] == '0' <==> d == 90)
    && (t[0] == '0' && t[1] == '0' <==> d == 0)
  }

  /** What the patterns need to know of a three-digit text `t` spelling the number `d`. */
  predicate SpellsThreeDigits(t: string, d: nat)
  {
    && |t| == 3 && IsDigit(t[0]) && IsDigit(t[1]) && IsDigit(t[2]) && t[0] != '0'
    && (t[0] == '1' && t[1] <= '7' <==> d <= 179)
    && (t[0] == '1' && t[1] == '8' && t[2] == '0' <==> d == 180)
  }

  lemma SpellsFromChars(t: string, d: nat)
    requires d < 100 && t == [DigitChar(d / 10), DigitChar(d % 10)]
    ensures SpellsTwoDigits(t, d)
  {
    TwoDigitRanges(d);
  }

  lemma SpellsFromChars3(t: string, d: nat)
    requires 100 <= d < 1000 && t == [DigitChar(d / 100), DigitChar(d / 10 % 10), DigitChar(d % 10)]
    ensures SpellsThreeDigits(t, d)
  {
    ThreeDigitRanges(d);
  }

  lemma PaddedTwoDigits(d: nat)
    requires d < 100
    ensures SpellsTwoDigits(Digits(d, 2), d)
  {
    TwoDigits(d);
    SpellsFromChars(Digits(d, 2), d);
  }

  lemma PaddedThreeDigits(d: nat)
    requires 100 <= d < 1000
    ensures SpellsThreeDigits(Digits(d, 2), d)
  {
    ThreeDigits(d);
    SpellsFromChars3(Digits(d, 2), d);
  }

  /** Four characters spell a fixed four-character text exactly when they match it one by one. */
  lemma Spells4(s: string, t: string)
    requires |s| == 4 && |t| == 4
    ensures s == t <==> s[0] == t[0] && s[1] == t[1] && s[2] == t[2] && s[3] == t[3]
  {
  }

  /** Five characters spell a fixed five-character text exactly when they match it one by one. */
  lemma Spells5(s: string, t: string)
    requires |s| == 5 && |t| == 5
    ensures s == t <==> s[0] == t[0] && s[1] == t[1] && s[2] == t[2] && s[3] == t[3] && s[4] == t[4]
  {
  }

  /** Six characters spell a fixed six-character text exactly when they match it one by one. */
  lemma Spells6(s: string, t: string)
    requires |s| == 6 && |t| == 6
    ensures s == t <==> s[0] == t[0] && s[1] == t[1] && s[2] == t[2] && s[3] == t[3] && s[4] == t[4] && s[5] == t[5]
  {
  }

  /** A text with a digit in it is not blank, in either reading of the blank alternative. */
  lemma NotBlank(s: string, k: nat)
    requires k < |s| && IsDigit(s[k])
    ensures !RunOfS(s) && !AllSpace(s)
  {
  }

  // Latitude, degrees and minutes.

  /** A letter then four digits, against both latitude recognisers, given what the digits mean. */
  lemma LatitudeChars(h: char, a: char, b: char, c: char, e: char, d: nat, m: nat)
    requires IsDigit(a) && IsDigit(b) && IsDigit(c) && IsDigit(e)
    requires (a <= '8' <==> d <= 89) && (c <= '5' <==> m <= 59)
    requires (a == '9' && b == '0' <==> d == 90) && (c == '0' && e == '0' <==> m == 0)
    ensures var s := [h, a, b, c, e];
      && (LatitudeAsWritten(s) <==> Latitude(s))
      && (Latitude(s) <==> (h == 'N' || h == 'S') && ((d <= 89 && m <= 59) || (d == 90 && m == 0)))
  {
    var s := [h, a, b, c, e];
    NotBlank(s, 1);
    assert !DecimalLatitude(s) by {
      assert s[2] != '.' && s[3] != '.';
    }
    assert s[1..] == [a, b, c, e];
    Spells4([a, b, c, e], "9000");
  }

  lemma LatitudeFields(h: char, t: string, u: string, d: nat, m: nat)
    requires SpellsTwoDigits(t, d) && SpellsTwoDigits(u, m)
    ensures var s := [h] + t + u;
      && (LatitudeAsWritten(s) <==> Latitude(s))
      && (Latitude(s) <==> (h == 'N' || h == 'S') && ((d <= 89 && m <= 59) || (d == 90 && m == 0)))
  {
    assert [h] + t + u == [h, t[0], t[1], u[0], u[1]];
    LatitudeChars(h, t[0], t[1], u[0], u[1], d, m);
  }

  /**
   * A hemisphere letter followed by two-digit degrees and two-digit minutes is a latitude exactly
   * when the letter is N or S and the position is at most 89 degrees 59 minutes, or exactly 90
   * degrees 00 minutes; both recognisers agree on it.
   */
  lemma LatitudeDegreesMinutes(h: char, d: nat, m: nat)
    requires d < 100 && m < 100
    ensures var s := [h] + Digits(d, 2) + Digits(m, 2);
      && (LatitudeAsWritten(s) <==> Latitude(s))
      && (Latitude(s) <==> (h == 'N' || h == 'S') && ((d <= 89 && m <= 59) || (d == 90 && m == 0)))
  {
    PaddedTwoDigits(d);
    PaddedTwoDigits(m);
    LatitudeFields(h, Digits(d, 2), Digits(m, 2), d, m);
  }

  // Latitude, decimal.

  /** An optional sign before a text that starts with a digit: the signed alternative reads the rest. */
  lemma SignedBody(sign: string, body: string)
    requires sign == "" || sign == "+" || sign == "-"
    requires |body| >= 1 && IsDigit(body[0])
    ensures DecimalLatitude(sign + body) <==> LatDecimalBody(body)
    ensures DecimalLongitude(sign + body) <==> LongDecimalBody(body)
    ensures !RunOfS(sign + body) && !AllSpace(sign + body)
  {
    var s := sign + body;
    NotBlank(s, |sign|);
    if sign != "" {
      assert s[1..] == body;
      assert s[0] == sign[0];
    } else {
      assert s == body;
    }
  }

  /** Two digits, a point and two digits, against the decimal latitude body. */
  lemma LatDecimalChars(a: char, b: char, c: char, e: char, d: nat, p: nat)
    requires IsDigit(a) && IsDigit(b) && IsDigit(c) && IsDigit(e)
    requires (a <= '8' <==> d <= 89) && (a == '9' && b == '0' <==> d == 90) && (c == '0' && e == '0' <==> p == 0)
    ensures LatDecimalBody([a, b, '.', c, e]) <==> d <= 89 || (d == 90 && p == 0)
  {
    Spells5([a, b, '.', c, e], "90.00");
  }

  lemma LatitudeDecimalFields(sign: string, t: string, u: string, d: nat, p: nat)
    requires sign == "" || sign == "+" || sign == "-"
    requires SpellsTwoDigits(t, d) && SpellsTwoDigits(u, p)
    ensures var s := sign + t + "." + u;
      && (LatitudeAsWritten(s) <==> Latitude(s))
      && (Latitude(s) <==> d <= 89 || (d == 90 && p == 0))
  {
    var body := [t[0], t[1], '.', u[0], u[1]];
    assert sign + t + "." + u == sign + body;
    SignedBody(sign, body);
    LatDecimalChars(t[0], t[1], u[0], u[1], d, p);
    var s := sign + body;
    assert !DegreeLatitude(s) by {
      assert s[0] == '+' || s[0] == '-' || s[0] == t[0];
    }
  }

  /**
   * An optionally signed decimal with two-digit degrees and two decimals is a latitude exactly
   * when it is at most 89.99 or exactly 90.00; both recognisers agree on it.
   */
  lemma LatitudeDecimal(sign: string, d: nat, p: nat)
    requires sign == "" || sign == "+" || sign == "-"
    requires d < 100 && p < 100
    ensures var s := sign + Digits(d, 2) + "." + Digits(p, 2);
      && (LatitudeAsWritten(s) <==> Latitude(s))
      && (Latitude(s) <==> d <= 89 || (d == 90 && p == 0))
  {
    PaddedTwoDigits(d);
    PaddedTwoDigits(p);
    LatitudeDecimalFields(sign, Digits(d, 2), Digits(p, 2), d, p);
  }

  // Longitude, degrees and minutes.

  /** A letter then four digits (two of degrees, two of minutes), against both longitude recognisers. */
  lemma LongitudeChars4(h: char, a: char, b: char, c: char, e: char, m: nat)
    requires IsDigit(a) && IsDigit(b) && IsDigit(c) && IsDigit(e)
    requires (c <= '5' <==> m <= 59)
    ensures var s := [h, a, b, c, e];
      && (LongitudeAsWritten(s) <==> Longitude(s))
      && (Longitude(s) <==> (h == 'E' || h == 'W') && m <= 59)
  {
    var s := [h, a, b, c, e];
    NotBlank(s, 1);
    assert !DecimalLongitude(s) by {
      assert s[2] != '.' && s[3] != '.';
    }
    assert s[1..] == [a, b, c, e];
  }

  /** A letter then five digits (three of degrees, two of minutes), against both longitude recognisers. */
  lemma LongitudeChars5(h: char, a: char, b: char, c: char, e: char, f: char, d: nat, m: nat)
    requires IsDigit(a) && IsDigit(b) && IsDigit(c) && IsDigit(e) && IsDigit(f) && a != '0'
    requires (a == '1' && b <= '7' <==> d <= 179) && (a == '1' && b == '8' && c == '0' <==> d == 180)
    requires (e <= '5' <==> m <= 59) && (e == '0' && f == '0' <==> m == 0)
    ensures var s := [h, a, b, c, e, f];
      && (LongitudeAsWritten(s) <==> Longitude(s))
      && (Longitude(s) <==> (h == 'E' || h == 'W') && ((d <= 179 && m <= 59) || (d == 180 && m == 0)))
  {
    var s := [h, a, b, c, e, f];
    NotBlank(s, 1);
    assert !DecimalLongitude(s) by {
      assert s[2] != '.' && s[3] != '.' && s[4] != '.';
    }
    assert s[1..] == [a, b, c, e, f];
    Spells5([a, b, c, e, f], "18000");
  }

  lemma LongitudeFields4(h: char, t: string, u: string, d: nat, m: nat)
    requires d < 100 && SpellsTwoDigits(t, d) && SpellsTwoDigits(u, m)
    ensures var s := [h] + t + u;
      && (LongitudeAsWritten(s) <==> Longitude(s))
      && (Longitude(s) <==> (h == 'E' || h == 'W') && ((d <= 179 && m <= 59) || (d == 180 && m == 0)))
  {
    assert [h] + t + u == [h, t[0], t[1], u[0], u[1]];
    LongitudeChars4(h, t[0], t[1], u[0], u[1], m);
  }

  lemma LongitudeFields5(h: char, t: string, u: string, d: nat, m: nat)
    requires SpellsThreeDigits(t, d) && SpellsTwoDigits(u, m)
    ensures var s := [h] + t + u;
      && (LongitudeAsWritten(s) <==> Longitude(s))
      && (Longitude(s) <==> (h == 'E' || h == 'W') && ((d <= 179 && m <= 59) || (d == 180 && m == 0)))
  {
    assert [h] + t + u == [h, t[0], t[1], t[2], u[0], u[1]];
    LongitudeChars5(h, t[0], t[1], t[2], u[0], u[1], d, m);
  }

  /**
   * A hemisphere letter followed by degrees (padded to two digits, up to three) and two-digit
   * minutes is a longitude exactly when the letter is E or W and the position is at most 179
   * degrees 59 minutes, or exactly 180 degrees 00 minutes; both recognisers agree on it.
   */
  lemma LongitudeDegreesMinutes(h: char, d: nat, m: nat)
    requires d < 1000 && m < 100
    ensures var s := [h] + Digits(d, 2) + Digits(m, 2);
      && (LongitudeAsWritten(s) <==> Longitude(s))
      && (Longitude(s) <==> (h == 'E' || h == 'W') && ((d <= 179 && m <= 59) || (d == 180 && m == 0)))
  {
    if d < 100 {
      LongitudeTwoDigitDegrees(h, d, m);
    } else {
      LongitudeThreeDigitDegrees(h, d, m);
    }
  }

  lemma LongitudeTwoDigitDegrees(h: char, d: nat, m: nat)
    requires d < 100 && m < 100
    ensures var s := [h] + Digits(d, 2) + Digits(m, 2);
      && (LongitudeAsWritten(s) <==> Longitude(s))
      && (Longitude(s) <==> (h == 'E' || h == 'W') && ((d <= 179 && m <= 59) || (d == 180 && m == 0)))
  {
    PaddedTwoDigits(d);
    PaddedTwoDigits(m);
    LongitudeFields4(h, Digits(d, 2), Digits(m, 2), d, m);
  }

  lemma LongitudeThreeDigitDegrees(h: char, d: nat, m: nat)
    requires 100 <= d < 1000 && m < 100
    ensures var s := [h] + Digits(d, 2) + Digits(m, 2);
      && (LongitudeAsWritten(s) <==> Longitude(s))
      && (Longitude(s) <==> (h == 'E' || h == 'W') && ((d <= 179 && m <= 59) || (d == 180 && m == 0)))
  {
    PaddedThreeDigits(d);
    PaddedTwoDigits(m);
    LongitudeFields5(h, Digits(d, 2), Digits(m, 2), d, m);
  }

  // Longitude, decimal.

  /** Two digits, a point and two digits are always a decimal longitude body. */
  lemma LongDecimalChars4(a: char, b: char, c: char, e: char)
    requires IsDigit(a) && IsDigit(b) && IsDigit(c) && IsDigit(e)
    ensures LongDecimalBody([a, b, '.', c, e])
  {
  }

  /** Three digits, a point and two digits, against the decimal longitude body. */
  lemma LongDecimalChars5(a: char, b: char, c: char, e: char, f: char, d: nat, p: nat)
    requires IsDigit(a) && IsDigit(b) && IsDigit(c) && IsDigit(e) && IsDigit(f) && a != '0'
    requires (a == '1' && b <= '7' <==> d <= 179) && (a == '1' && b == '8' && c == '0' <==> d == 180)
    requires (e == '0' && f == '0' <==> p == 0)
    ensures LongDecimalBody([a, b, c, '.', e, f]) <==> d <= 179 || (d == 180 && p == 0)
  {
    Spells6([a, b, c, '.', e, f], "180.00");
  }

  lemma LongitudeDecimalFields4(sign: string, t: string, u: string, d: nat, p: nat)
    requires sign == "" || sign == "+" || sign == "-"
    requires d < 100 && SpellsTwoDigits(t, d) && SpellsTwoDigits(u, p)
    ensures var s := sign + t + "." + u;
      && (LongitudeAsWritten(s) <==> Longitude(s))
      && (Longitude(s) <==> d <= 179 || (d == 180 && p == 0))
  {
    var body := [t[0], t[1], '.', u[0], u[1]];
    assert sign + t + "." + u == sign + body;
    SignedBody(sign, body);
    LongDecimalChars4(t[0], t[1], u[0], u[1]);
  }

  lemma LongitudeDecimalFields5(sign: string, t: string, u: string, d: nat, p: nat)
    requires sign == "" || sign == "+" || sign == "-"
    requires SpellsThreeDigits(t, d) && SpellsTwoDigits(u, p)
    ensures var s := sign + t + "." + u;
      && (LongitudeAsWritten(s) <==> Longitude(s))
      && (Longitude(s) <==> d <= 179 || (d == 180 && p == 0))
  {
    var body := [t[0], t[1], t[2], '.', u[0], u[1]];
    assert sign + t + "." + u == sign + body;
    SignedBody(sign, body);
    LongDecimalChars5(t[0], t[1], t[2], u[0], u[1], d, p);
    var s := sign + body;
    assert !DegreeLongitude(s) by {
      assert s[0] == '+' || s[0] == '-' || s[0] == t[0];
    }
  }

  /**
   * An optionally signed decimal with degrees (padded to two digits, up to three) and two
   * decimals is a longitude exactly when it is at most 179.99 or exactly 180.00; both
   * recognisers agree on it.
   */
  lemma LongitudeDecimal(sign: string, d: nat, p: nat)
    requires sign == "" || sign == "+" || sign == "-"
    requires d < 1000 && p < 100
    ensures var s := sign + Digits(d, 2) + "." + Digits(p, 2);
      && (LongitudeAsWritten(s) <==> Longitude(s))
      && (Longitude(s) <==> d <= 179 || (d == 180 && p == 0))
  {
    if d < 100 {
      LongitudeTwoDigitDecimal(sign, d, p);
    } else {
      LongitudeThreeDigitDecimal(sign, d, p);
    }
  }

  lemma LongitudeTwoDigitDecimal(sign: string, d: nat, p: nat)
    requires sign == "" || sign == "+" || sign == "-"
    requires d < 100 && p < 100
    ensures var s := sign + Digits(d, 2) + "." + Digits(p, 2);
      && (LongitudeAsWritten(s) <==> Longitude(s))
      && (Longitude(s) <==> d <= 179 || (d == 180 && p == 0))
  {
    PaddedTwoDigits(d);
    PaddedTwoDigits(p);
    LongitudeDecimalFields4(sign, Digits(d, 2), Digits(p, 2), d, p);
  }

  lemma LongitudeThreeDigitDecimal(sign: string, d: nat, p: nat)
    requires sign == "" || sign == "+" || sign == "-"
    requires 100 <= d < 1000 && p < 100
    ensures var s := sign + Digits(d, 2) + "." + Digits(p, 2);
      && (LongitudeAsWritten(s) <==> Longitude(s))
      && (Longitude(s) <==> d <= 179 || (d == 180 && p == 0))
  {
    PaddedThreeDigits(d);
    PaddedTwoDigits(p);
    LongitudeDecimalFields5(sign, Digits(d, 2), Digits(p, 2), d, p);
  }

  /** Digits without a hemisphere letter, sign or decimal point are never a latitude or longitude. */
  lemma UnprefixedDigitsRejected(s: string)
    requires s != [] && forall k :: 0 <= k < |s| ==> IsDigit(s[k])
    ensures !LatitudeAsWritten(s) && !Latitude(s) && !LongitudeAsWritten(s) && !Longitude(s)
  {
    assert !IsSpace(s[0]) && s[0] != 's';
    if |s| >= 3 {
      assert s[2] != '.';
    }
    if |s| >= 4 {
      assert s[3] != '.';
    }
  }

  /**
   * As written, the blank alternative accepts the empty string and any run of the letter 's',
   * and rejects a single space.
   */
  lemma BlankAsWritten(n: nat)
    ensures LatitudeAsWritten(seq(n, _ => 's')) && LongitudeAsWritten(seq(n, _ => 's'))
    ensures !LatitudeAsWritten(" ") && !LongitudeAsWritten(" ")
  {
    assert " "[0] == ' ';
  }

  /**
   * With the intended blank alternative, whitespace alone (the empty string included) is
   * accepted and a letter 's' is not.
   */
  lemma BlankIntended(s: string)
    requires forall k :: 0 <= k < |s| ==> IsSpace(s[k])
    ensures Latitude(s) && Longitude(s)
    ensures !Latitude("s") && !Longitude("s")
  {
    assert "s"[0] == 's';
  }
}
