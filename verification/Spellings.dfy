/**
 Which strings are read as ids, exactly: the padded id of an instant, with digits of any script in the places
 where the date parser takes them.
 */
module Spellings {
  import opened Sequences
  import opened Calendar
  import opened StopIds

  /** The places of the year, of the last digit of a day from 10 to 29 and of an hour before 20, and of the
      last digit of the minute and the second. */
  predicate AnyScript(plain: string, i: int)
    requires |plain| == 23
  {
    || 0 <= i <= 3
    || (i == 7 && (plain[6] == '1' || plain[6] == '2'))
    || (i == 10 && (plain[9] == '0' || plain[9] == '1'))
    || i == 12 || i == 14
  }

  /** `text` is `plain`, with digits of the same value in those places. */
  ghost predicate Spells(p: Platform, text: string, plain: string) {
    && |text| == |plain| == 23
    && forall i :: 0 <= i < 23 ==> SpeltAt(p, text, plain, i)
  }

  ghost predicate SpeltAt(p: Platform, text: string, plain: string, i: int)
    requires |text| == |plain| == 23 && 0 <= i < 23
  {
    if AnyScript(plain, i) then p.value(text[i]).Some? && p.value(text[i]) == p.value(plain[i]) else text[i] == plain[i]
  }

  lemma SameCharacter(p: Platform, c: char, d: char)
    requires Sound(p) && PlainChar(p, c) == d
    ensures IsAscii(c) ==> c == d
    ensures p.value(c).Some? ==> p.value(d) == p.value(c)
  {
    if p.value(c).Some? {
      var v := p.value(c).value;
      assert p.value(Digit(v)) == Some(v);
      if IsAscii(c) {
        assert c == Digit((c - '0') as int);
      }
    }
  }

  lemma AcceptedIsSpelt(p: Platform, text: string, plain: string)
    requires Sound(p) && Shaped(p, text) && Admitted(text) && plain == Plain(p, text)
    ensures Spells(p, text, plain)
  {
    forall i | 0 <= i < 23 ensures SpeltAt(p, text, plain, i) {
      SameCharacter(p, text[i], plain[i]);
      SameCharacter(p, text[6], plain[6]);
      SameCharacter(p, text[9], plain[9]);
      assert AsciiOnly(6) && AsciiOnly(9);
      assert !Separates(i) ==> IsDigit(p, text[i]);
      assert IsAscii('T') && IsAscii('.') && IsAscii('Z');
    }
  }

  lemma {:induction false} NumberOfPlain(p: Platform, s: string, t: string)
    requires |s| == |t| && forall i :: 0 <= i < |s| ==> DigitValue(p, s[i]) == DigitValue(p, t[i])
    ensures Number(p, s) == Number(p, t)
  {
    if s != "" {
      NumberOfPlain(p, s[..|s| - 1], t[..|t| - 1]);
    }
  }

  lemma SpeltValues(p: Platform, text: string, plain: string, from: nat, to: nat)
    requires Spells(p, text, plain) && from <= to <= 23
    ensures Number(p, text[from..to]) == Number(p, plain[from..to])
  {
    forall i | 0 <= i < to - from ensures DigitValue(p, text[from..to][i]) == DigitValue(p, plain[from..to][i]) {
      assert SpeltAt(p, text, plain, from + i);
    }
    NumberOfPlain(p, text[from..to], plain[from..to]);
  }

  lemma SpeltIsRead(p: Platform, text: string, plain: string)
    requires Spells(p, text, plain)
    ensures Read(p, text) == Read(p, plain)
  {
    hide Spells, Number;
    SpeltLength(p, text, plain);
    SpeltValues(p, text, plain, 0, 4);
    SpeltValues(p, text, plain, 4, 6);
    SpeltValues(p, text, plain, 6, 8);
    SpeltValues(p, text, plain, 9, 11);
    SpeltValues(p, text, plain, 11, 13);
    SpeltValues(p, text, plain, 13, 15);
    SpeltValues(p, text, plain, 16, 22);
  }

  lemma SpeltLength(p: Platform, text: string, plain: string)
    requires Spells(p, text, plain)
    ensures |text| == |plain| == 23
  {
  }

  lemma SpeltIsAdmitted(p: Platform, text: string, plain: string)
    requires Spells(p, text, plain) && Shaped(p, plain) && forall i :: 0 <= i < 23 ==> IsAscii(plain[i])
    ensures Shaped(p, text) && Admitted(text)
  {
    forall i | 0 <= i < 23 ensures AnyScript(plain, i) ==> IsDigit(p, text[i])
                           ensures !AnyScript(plain, i) ==> text[i] == plain[i] {
      assert SpeltAt(p, text, plain, i);
    }
    forall i | 0 <= i < 23 && !Separates(i) ensures IsDigit(p, text[i]) {
      assert IsDigit(p, plain[i]);
    }
  }

  lemma PaddedText(p: Platform, instant: int)
    requires Sound(p) && Representable(instant)
    ensures |PaddedId(instant)| == 28 && PaddedId(instant)[..5] == PREFIX
    ensures (var plain := PaddedId(instant)[5..];
             && Shaped(p, plain) && (forall i :: 0 <= i < 23 ==> IsAscii(plain[i]))
             && Valid(Read(p, plain)) && Instant(Read(p, plain)) == instant)
  {
    hide Pad, Assemble, FieldsOf, Instant, Number;
    var f := FieldsOf(instant);
    var plain := Pad(f.year, 4) + AfterYear(f);
    StopIdReadsBack(p, instant);
    assert PaddedId(instant)[|PREFIX|..] == plain;
    PaddedIdIsAscii(p, instant);
    forall i | 0 <= i < |plain| ensures IsAscii(plain[i]) {
      assert PaddedId(instant)[|PREFIX| + i] == plain[i];
    }
  }

  ghost predicate IsSpelling(p: Platform, candidate: string, instant: int) {
    && Representable(instant) && |candidate| == 28 && candidate[..5] == "stop-"
    && Spells(p, candidate[5..], PaddedId(instant)[5..])
  }

  /** A string names an instant exactly when it is the instant's padded id, spelt so. */
  lemma AcceptedExactly(p: Platform, candidate: string, instant: int)
    requires Sound(p)
    ensures ParseStopId(p, candidate) == Some(instant) <==> IsSpelling(p, candidate, instant)
  {
    if ParseStopId(p, candidate) == Some(instant) {
      AcceptedIsSpelling(p, candidate, instant);
    }
    if IsSpelling(p, candidate, instant) {
      SpellingIsAccepted(p, candidate, instant);
    }
  }

  lemma AcceptedIsSpelling(p: Platform, candidate: string, instant: int)
    requires Sound(p) && ParseStopId(p, candidate) == Some(instant)
    ensures IsSpelling(p, candidate, instant)
  {
    hide Spells, Read, Shaped, Admitted, Representable, FieldsOf, Instant, Valid, Plain, Sound;
    var text := candidate[|PREFIX|..];
    SpellingIsPaddedId(p, candidate, instant);
    ShapedLength(p, text);
    PaddedText(p, instant);
    assert candidate == PREFIX + text;
    PlainPrefix(p, text);
    assert PaddedId(instant)[5..] == Plain(p, text);
    AcceptedIsSpelt(p, text, Plain(p, text));
  }

  lemma SpellingIsAccepted(p: Platform, candidate: string, instant: int)
    requires Sound(p) && IsSpelling(p, candidate, instant)
    ensures ParseStopId(p, candidate) == Some(instant)
  {
    hide Spells, Read, Shaped, Admitted, FieldsOf, Instant, Valid, Sound;
    var text, plain := candidate[5..], PaddedId(instant)[5..];
    PaddedText(p, instant);
    SpeltIsAdmitted(p, text, plain);
    SpeltIsRead(p, text, plain);
  }

  lemma ShapedLength(p: Platform, s: string)
    requires Shaped(p, s)
    ensures |s| == 23
  {
  }

  /** The year a platform writes is its number, in four digits where the platform pads, and else without a
      leading zero. */
  lemma YearsAreWritten(p: Platform, year: int)
    requires Sound(p) && 1 <= year <= LAST_YEAR
    ensures Number(p, YearText(p, year)) == year
    ensures p.padsYears ==> |YearText(p, year)| == 4
    ensures !p.padsYears ==> YearText(p, year)[0] != '0'
  {
    Widths();
    assert PowerOfTen(1) == 10 && PowerOfTen(3) == 1000;
    PadReadsBack(p, year, |YearText(p, year)|);
    if !p.padsYears {
      LeadingDigit(year, |YearText(p, year)|);
    }
  }

  lemma {:induction false} LeadingDigit(n: nat, width: nat)
    requires width > 0 && PowerOfTen(width - 1) <= n < PowerOfTen(width)
    ensures Pad(n, width)[0] != '0'
  {
    if width > 1 {
      assert PowerOfTen(width - 1) == 10 * PowerOfTen(width - 2);
      LeadingDigit(n / 10, width - 1);
    }
  }
}
