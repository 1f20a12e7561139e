/**
 The ids of `diagnostics/analysis/src/analysis/routes_stops.py`: how an instant is written as one
 and which strings are read back as which instant.

 Two things are the platform's to decide and are parameters here: which characters are decimal
 digits, and whether years before 1000 are padded to four digits when they are written.
 */
module StopIds {
  import opened Sequences
  import opened Calendar

  // ----- digits -----

  /** `value` is the character database: the value of a decimal digit of any script. */
  datatype Platform = Platform(padsYears: bool, value: char -> Option<int>)

  function Digit(d: int): char
    requires 0 <= d <= 9
  {
    '0' + d as char
  }

  predicate IsAscii(c: char) { c < '\U{80}' }

  predicate IsAsciiDigit(c: char) { '0' <= c <= '9' }

  /** Digits stand for 0 to 9, and the ASCII ones are '0' to '9' in order. */
  ghost predicate Sound(p: Platform) {
    && (forall c :: p.value(c).Some? ==> 0 <= p.value(c).value <= 9)
    && (forall c :: IsAscii(c) ==> (p.value(c).Some? <==> IsAsciiDigit(c)))
    && (forall d :: 0 <= d <= 9 ==> p.value(Digit(d)) == Some(d))
  }

  predicate IsDigit(p: Platform, c: char) { p.value(c).Some? }

  function DigitValue(p: Platform, c: char): int {
    if p.value(c).Some? then p.value(c).value else 0
  }

  predicate AllDigits(p: Platform, s: string) {
    forall i :: 0 <= i < |s| ==> IsDigit(p, s[i])
  }

  predicate AllAscii(s: string) {
    forall i :: 0 <= i < |s| ==> IsAscii(s[i])
  }

  /** The same text with every digit written in ASCII. */
  function Plain(p: Platform, s: string): string {
    seq(|s|, i requires 0 <= i < |s| => PlainChar(p, s[i]))
  }

  function PlainChar(p: Platform, c: char): char {
    if p.value(c).Some? && 0 <= p.value(c).value <= 9 then Digit(p.value(c).value) else c
  }

  function PowerOfTen(width: nat): nat {
    if width == 0 then 1 else 10 * PowerOfTen(width - 1)
  }

  /** `n` in exactly `width` digits. */
  function Pad(n: nat, width: nat): (s: string)
    ensures |s| == width
  {
    if width == 0 then "" else Pad(n / 10, width - 1) + [Digit(n % 10)]
  }

  function Number(p: Platform, s: string): int {
    if s == "" then 0 else 10 * Number(p, s[..|s| - 1]) + DigitValue(p, s[|s| - 1])
  }

  lemma {:induction false} PadIsDigits(p: Platform, n: nat, width: nat)
    requires Sound(p)
    ensures forall i :: 0 <= i < width ==> IsAsciiDigit(Pad(n, width)[i])
    ensures AllDigits(p, Pad(n, width))
  {
    if width > 0 {
      PadIsDigits(p, n / 10, width - 1);
      assert p.value(Digit(n % 10)) == Some(n % 10);
    }
  }

  lemma {:induction false} PadReadsBack(p: Platform, n: nat, width: nat)
    requires Sound(p) && n < PowerOfTen(width)
    ensures Number(p, Pad(n, width)) == n
  {
    if width > 0 {
      PadReadsBack(p, n / 10, width - 1);
      assert Pad(n, width)[..width - 1] == Pad(n / 10, width - 1);
      assert p.value(Digit(n % 10)) == Some(n % 10);
    }
  }

  lemma {:induction false} NumberWritesBack(p: Platform, s: string)
    requires Sound(p) && AllDigits(p, s)
    ensures 0 <= Number(p, s) < PowerOfTen(|s|) && Pad(Number(p, s), |s|) == Plain(p, s)
  {
    if s != "" {
      var front, last := s[..|s| - 1], s[|s| - 1];
      assert s == front + [last];
      assert AllDigits(p, front) && IsDigit(p, last);
      NumberWritesBack(p, front);
      DigitWritesBack(p, last);
      hide Sound, PlainChar, AllDigits, Digit;
      LastDigit(Number(p, front), DigitValue(p, last));
      assert Plain(p, s) == Plain(p, front) + [PlainChar(p, last)];
    }
  }

  lemma DigitWritesBack(p: Platform, c: char)
    requires Sound(p) && IsDigit(p, c)
    ensures 0 <= DigitValue(p, c) <= 9 && PlainChar(p, c) == Digit(DigitValue(p, c))
  {
  }

  lemma LastDigit(n: nat, d: int)
    requires 0 <= d <= 9
    ensures (10 * n + d) / 10 == n && (10 * n + d) % 10 == d
  {
  }

  lemma Widths()
    ensures PowerOfTen(2) == 100 && PowerOfTen(4) == 10_000 && PowerOfTen(6) == 1_000_000
  {
    assert PowerOfTen(1) == 10 && PowerOfTen(3) == 1000 && PowerOfTen(5) == 100_000;
  }

  // ----- the id of an instant -----

  const PREFIX := "stop-"

  function YearText(p: Platform, year: int): string
    requires 1 <= year <= LAST_YEAR
  {
    Pad(year, if p.padsYears || year >= 1000 then 4 else if year < 10 then 1 else if year < 100 then 2 else 3)
  }

  function Assemble(m: string, d: string, h: string, n: string, c: string, u: string): string {
    m + d + "T" + h + n + c + "." + u + "Z"
  }

  function AfterYear(f: Fields): string
    requires Valid(f)
  {
    Assemble(Pad(f.month, 2), Pad(f.day, 2), Pad(f.hour, 2), Pad(f.minute, 2), Pad(f.second, 2), Pad(f.micro, 6))
  }

  function StopId(p: Platform, instant: int): string
    requires Representable(instant)
  {
    PREFIX + (YearText(p, FieldsOf(instant).year) + AfterYear(FieldsOf(instant)))
  }

  /** The id with all four digits of the year. */
  function PaddedId(instant: int): string
    requires Representable(instant)
  {
    PREFIX + (Pad(FieldsOf(instant).year, 4) + AfterYear(FieldsOf(instant)))
  }

  /** Whether the platform writes an instant's year in full. */
  predicate InFull(p: Platform, instant: int)
    requires Representable(instant)
  {
    p.padsYears || 1000 <= FieldsOf(instant).year
  }

  // ----- the instant of an id -----

  predicate Separates(i: int) { i == 8 || i == 15 || i == 22 }

  /** Eight digits, a T, six digits, a point, six digits and a Z: digits of any script. */
  predicate Shaped(p: Platform, s: string) {
    && |s| == 23 && s[8] == 'T' && s[15] == '.' && s[22] == 'Z'
    && forall i :: 0 <= i < 23 && !Separates(i) ==> IsDigit(p, s[i])
  }

  predicate AsciiOnly(i: int) {
    4 <= i <= 6 || i == 9 || i == 11 || i == 13 || 16 <= i <= 21
  }

  /** Where the date parser insists on ASCII: everywhere but in the year, in the last digit of the
      minute and the second, in that of a day from 10 to 29 and in that of an hour before 20. */
  predicate Admitted(s: string)
    requires |s| == 23
  {
    && (forall i :: 0 <= i < 23 && AsciiOnly(i) ==> IsAscii(s[i]))
    && (s[6] == '1' || s[6] == '2' || IsAscii(s[7]))
    && (s[9] == '0' || s[9] == '1' || IsAscii(s[10]))
  }

  function Read(p: Platform, s: string): Fields
    requires |s| == 23
  {
    Fields(Number(p, s[0..4]), Number(p, s[4..6]), Number(p, s[6..8]),
           Number(p, s[9..11]), Number(p, s[11..13]), Number(p, s[13..15]), Number(p, s[16..22]))
  }

  function ParseStopId(p: Platform, candidate: string): Option<int> {
    if PREFIX <= candidate then ParseInstant(p, candidate[|PREFIX|..]) else None
  }

  function ParseInstant(p: Platform, s: string): Option<int> {
    if Shaped(p, s) && Admitted(s) && Valid(Read(p, s)) then Some(Instant(Read(p, s))) else None
  }

  // ----- writing and reading back -----

  lemma Pieces(s: string, y: string, m: string, d: string, h: string, n: string, c: string, u: string)
    requires s == y + Assemble(m, d, h, n, c, u)
    requires |y| == 4 && |m| == |d| == |h| == |n| == |c| == 2 && |u| == 6
    ensures |s| == 23 && s[8] == 'T' && s[15] == '.' && s[22] == 'Z'
    ensures s[0..4] == y && s[4..6] == m && s[6..8] == d
    ensures s[9..11] == h && s[11..13] == n && s[13..15] == c && s[16..22] == u
  {
    var date, time := y + m + d, h + n + c;
    assert s == date + ("T" + time + "." + u + "Z");
    assert s[..8] == date && s[9..15] == time && s[16..22] == u;
    assert s[0..4] == date[..4] && s[4..6] == date[4..6] && s[6..8] == date[6..8];
    assert s[9..11] == time[..2] && s[11..13] == time[2..4] && s[13..15] == time[4..6];
  }

  lemma ReadsBack(p: Platform, f: Fields)
    requires Sound(p) && Valid(f)
    ensures Number(p, Pad(f.year, 4)) == f.year && Number(p, Pad(f.month, 2)) == f.month
    ensures Number(p, Pad(f.day, 2)) == f.day && Number(p, Pad(f.hour, 2)) == f.hour
    ensures Number(p, Pad(f.minute, 2)) == f.minute && Number(p, Pad(f.second, 2)) == f.second
    ensures Number(p, Pad(f.micro, 6)) == f.micro
  {
    hide Pad, Number, PowerOfTen, Sound;
    Widths();
    PadReadsBack(p, f.year, 4);
    PadReadsBack(p, f.month, 2);
    PadReadsBack(p, f.day, 2);
    PadReadsBack(p, f.hour, 2);
    PadReadsBack(p, f.minute, 2);
    PadReadsBack(p, f.second, 2);
    PadReadsBack(p, f.micro, 6);
  }

  /** Character `i` of the text is character `i - from` of the piece it lies in. */
  lemma InPiece(s: string, from: nat, to: nat, i: nat)
    requires from <= i < to <= |s|
    ensures s[from..to][i - from] == s[i]
  {
  }

  ghost predicate DigitsAt(s: string, i: int)
    requires 0 <= i < |s|
  {
    IsAsciiDigit(s[i])
  }

  lemma WrittenInDigits(p: Platform, f: Fields, s: string)
    requires Sound(p) && Valid(f) && s == Pad(f.year, 4) + AfterYear(f)
    ensures |s| == 23 && forall i :: 0 <= i < 23 && !Separates(i) ==> DigitsAt(s, i)
  {
    hide Pad, Assemble, Sound;
    Pieces(s, Pad(f.year, 4), Pad(f.month, 2), Pad(f.day, 2),
           Pad(f.hour, 2), Pad(f.minute, 2), Pad(f.second, 2), Pad(f.micro, 6));
    PadIsDigits(p, f.year, 4);
    PadIsDigits(p, f.month, 2);
    PadIsDigits(p, f.day, 2);
    PadIsDigits(p, f.hour, 2);
    PadIsDigits(p, f.minute, 2);
    PadIsDigits(p, f.second, 2);
    PadIsDigits(p, f.micro, 6);
    forall i | 0 <= i < 23 && !Separates(i) ensures DigitsAt(s, i) {
      if i < 4 { InPiece(s, 0, 4, i); }
      else if i < 6 { InPiece(s, 4, 6, i); }
      else if i < 8 { InPiece(s, 6, 8, i); }
      else if i < 11 { InPiece(s, 9, 11, i); }
      else if i < 13 { InPiece(s, 11, 13, i); }
      else if i < 15 { InPiece(s, 13, 15, i); }
      else { InPiece(s, 16, 22, i); }
    }
  }

  lemma WrittenIsRead(p: Platform, f: Fields, s: string)
    requires Sound(p) && Valid(f) && s == Pad(f.year, 4) + AfterYear(f)
    ensures ParseInstant(p, s) == Some(Instant(f))
  {
    hide Pad, Number, Assemble, Instant;
    WrittenInDigits(p, f, s);
    Pieces(s, Pad(f.year, 4), Pad(f.month, 2), Pad(f.day, 2),
           Pad(f.hour, 2), Pad(f.minute, 2), Pad(f.second, 2), Pad(f.micro, 6));
    ReadsBack(p, f);
    forall i | 0 <= i < 23 && !Separates(i) ensures IsDigit(p, s[i]) && IsAscii(s[i]) {
      assert DigitsAt(s, i);
    }
  }

  /** The padded id always reads back. The one the platform writes does exactly when it is that one:
      when years are padded, or from the year 1000 on. */
  lemma StopIdReadsBack(p: Platform, instant: int)
    requires Sound(p) && Representable(instant)
    ensures ParseStopId(p, PaddedId(instant)) == Some(instant)
    ensures ParseStopId(p, StopId(p, instant)) == if InFull(p, instant) then Some(instant) else None
    ensures StopId(p, instant) == PaddedId(instant) <==> InFull(p, instant)
  {
    hide Pad, Assemble, FieldsOf, Instant, ParseInstant, Sound;
    var f := FieldsOf(instant);
    var full, written := Pad(f.year, 4) + AfterYear(f), YearText(p, f.year) + AfterYear(f);
    assert PaddedId(instant)[|PREFIX|..] == full && StopId(p, instant)[|PREFIX|..] == written;
    WrittenIsRead(p, f, full);
    AfterYearLength(f);
    if !InFull(p, instant) {
      TooShort(p, written);
    }
  }

  lemma TooShort(p: Platform, s: string)
    requires |s| < 23
    ensures ParseInstant(p, s).None?
  {
  }

  lemma AfterYearLength(f: Fields)
    requires Valid(f)
    ensures |AfterYear(f)| == 19
  {
    hide Pad;
  }

  // ----- the spellings of an instant -----

  lemma Reassemble(s: string)
    requires |s| == 23 && s[8] == 'T' && s[15] == '.' && s[22] == 'Z'
    ensures s == s[0..4] + Assemble(s[4..6], s[6..8], s[9..11], s[11..13], s[13..15], s[16..22])
  {
    assert s == s[0..4] + s[4..6] + s[6..8] + [s[8]] + s[9..11] + s[11..13] + s[13..15] + [s[15]] + s[16..22] + [s[22]];
  }

  lemma PieceWritesBack(p: Platform, s: string, from: nat, to: nat)
    requires Sound(p) && Shaped(p, s) && from <= to <= 23 && forall i :: from <= i < to ==> !Separates(i)
    ensures 0 <= Number(p, s[from..to]) && Pad(Number(p, s[from..to]), to - from) == Plain(p, s)[from..to]
  {
    NumberWritesBack(p, s[from..to]);
    assert Plain(p, s[from..to]) == Plain(p, s)[from..to];
  }

  /** Reading a text and writing it out again gives it in ASCII. */
  lemma ReadWritesBack(p: Platform, s: string)
    requires Sound(p) && Shaped(p, s) && Valid(Read(p, s))
    ensures Plain(p, s) == Pad(Read(p, s).year, 4) + AfterYear(Read(p, s))
  {
    hide Pad, Number, Assemble, Plain;
    PlainKeepsShape(p, s);
    PieceWritesBack(p, s, 0, 4);
    PieceWritesBack(p, s, 4, 6);
    PieceWritesBack(p, s, 6, 8);
    PieceWritesBack(p, s, 9, 11);
    PieceWritesBack(p, s, 11, 13);
    PieceWritesBack(p, s, 13, 15);
    PieceWritesBack(p, s, 16, 22);
    Reassemble(Plain(p, s));
  }

  lemma PlainKeepsShape(p: Platform, s: string)
    requires Sound(p) && Shaped(p, s)
    ensures |Plain(p, s)| == 23 && Plain(p, s)[8] == 'T' && Plain(p, s)[15] == '.' && Plain(p, s)[22] == 'Z'
  {
    assert p.value('T').None? && p.value('.').None? && p.value('Z').None?;
  }

  lemma PlainPrefix(p: Platform, rest: string)
    requires Sound(p)
    ensures Plain(p, PREFIX + rest) == PREFIX + Plain(p, rest)
  {
    forall i | 0 <= i < |PREFIX| ensures PlainChar(p, PREFIX[i]) == PREFIX[i] {
      assert IsAscii(PREFIX[i]) && !IsAsciiDigit(PREFIX[i]);
    }
  }

  /** Whatever digits it is spelt in, an accepted id is its instant's padded id in other digits. */
  lemma SpellingIsPaddedId(p: Platform, candidate: string, instant: int)
    requires Sound(p) && ParseStopId(p, candidate) == Some(instant)
    ensures Representable(instant) && Plain(p, candidate) == PaddedId(instant)
  {
    hide Pad, Assemble, Plain, Instant, Number;
    var rest := candidate[|PREFIX|..];
    assert candidate == PREFIX + rest;
    FieldsOfInstant(Read(p, rest));
    ReadWritesBack(p, rest);
    PlainPrefix(p, rest);
  }

  /** Two accepted ids name one instant exactly when they agree in the value of every digit. */
  lemma SpellingsAgreeInValue(p: Platform, a: string, b: string)
    requires Sound(p) && ParseStopId(p, a).Some? && ParseStopId(p, b).Some?
    ensures ParseStopId(p, a) == ParseStopId(p, b) <==> Plain(p, a) == Plain(p, b)
  {
    hide Plain, ParseStopId, PaddedId;
    var s, t := ParseStopId(p, a).value, ParseStopId(p, b).value;
    SpellingIsPaddedId(p, a, s);
    SpellingIsPaddedId(p, b, t);
    StopIdReadsBack(p, s);
    StopIdReadsBack(p, t);
  }

  lemma PlainAscii(p: Platform, s: string)
    requires Sound(p)
    ensures AllAscii(s) ==> Plain(p, s) == s
    ensures AllDigitsReplaced(p, s) ==> AllAscii(Plain(p, s))
  {
    if AllAscii(s) {
      forall i | 0 <= i < |s| ensures PlainChar(p, s[i]) == s[i] {
        if p.value(s[i]).Some? {
          var d := (s[i] - '0') as int;
          assert Digit(d) == s[i];
        }
      }
    }
  }

  ghost predicate AllDigitsReplaced(p: Platform, s: string) {
    forall i :: 0 <= i < |s| ==> IsAscii(PlainChar(p, s[i]))
  }

  /** Of all the spellings of an instant one is in ASCII, and that is the padded id: the id the
      service writes, whenever that one reads back at all. */
  lemma OneAsciiSpelling(p: Platform, candidate: string, instant: int)
    requires Sound(p) && ParseStopId(p, candidate) == Some(instant)
    ensures Representable(instant)
    ensures AllAscii(candidate) <==> candidate == PaddedId(instant)
    ensures InFull(p, instant) ==> (AllAscii(candidate) <==> candidate == StopId(p, instant))
  {
    hide Plain, ParseStopId, PaddedId, StopId, AllAscii, FieldsOf;
    SpellingIsPaddedId(p, candidate, instant);
    PlainAscii(p, candidate);
    PaddedIdIsAscii(p, instant);
    StopIdReadsBack(p, instant);
  }

  lemma PaddedIdIsAscii(p: Platform, instant: int)
    requires Sound(p) && Representable(instant)
    ensures AllAscii(PaddedId(instant))
  {
    hide Pad, Assemble, FieldsOf, Sound;
    var f := FieldsOf(instant);
    var rest := Pad(f.year, 4) + AfterYear(f);
    WrittenInDigits(p, f, rest);
    Pieces(rest, Pad(f.year, 4), Pad(f.month, 2), Pad(f.day, 2),
           Pad(f.hour, 2), Pad(f.minute, 2), Pad(f.second, 2), Pad(f.micro, 6));
    forall i | 0 <= i < |rest| ensures IsAscii(rest[i]) {
      if !Separates(i) { assert DigitsAt(rest, i); }
    }
    assert AllAscii(PREFIX);
    assert AllAscii(PREFIX + rest);
  }

  lemma StopIdIsAscii(p: Platform, instant: int)
    requires Sound(p) && Representable(instant)
    ensures AllAscii(StopId(p, instant))
  {
    hide Pad, Assemble, FieldsOf, Sound;
    var f := FieldsOf(instant);
    var rest := Pad(f.year, 4) + AfterYear(f);
    PaddedIdIsAscii(p, instant);
    assert PaddedId(instant)[|PREFIX| + 4..] == AfterYear(f);
    PadIsDigits(p, f.year, |YearText(p, f.year)|);
    forall i | 0 <= i < |AfterYear(f)| ensures IsAscii(AfterYear(f)[i]) {
      assert PaddedId(instant)[|PREFIX| + 4 + i] == AfterYear(f)[i];
    }
    assert AllAscii(PREFIX) && AllAscii(YearText(p, f.year)) && AllAscii(AfterYear(f));
  }

  const YEARLESS := "0915T101112.123456Z"
  const ARABIC_YEAR := "\U{0662}\U{0660}\U{0662}\U{0664}"
  const LATIN_YEAR := "2024"

  lemma TwoDigits(p: Platform, s: string)
    requires |s| == 2
    ensures Number(p, s) == 10 * DigitValue(p, s[0]) + DigitValue(p, s[1])
  {
    assert s[..1][..0] == "";
    assert Number(p, s[..1]) == DigitValue(p, s[0]);
  }

  lemma FourDigits(p: Platform, s: string)
    requires |s| == 4
    ensures Number(p, s) == 10 * (10 * (10 * DigitValue(p, s[0]) + DigitValue(p, s[1])) + DigitValue(p, s[2])) + DigitValue(p, s[3])
  {
    assert s[..3][..2] == s[..2];
    TwoDigits(p, s[..2]);
  }

  lemma SixDigits(p: Platform, s: string)
    requires |s| == 6
    ensures Number(p, s) == 100 * Number(p, s[..4]) + 10 * DigitValue(p, s[4]) + DigitValue(p, s[5])
  {
    assert s[..5][..4] == s[..4];
  }

  lemma YearIsShaped(p: Platform, year: string)
    requires Sound(p) && |year| == 4 && AllDigits(p, year)
    ensures Shaped(p, year + YEARLESS) && Admitted(year + YEARLESS)
  {
    var s := year + YEARLESS;
    AsciiValues(p);
    forall i | 0 <= i < 23 && !Separates(i) ensures IsDigit(p, s[i]) {
      if i < 4 { assert s[i] == year[i]; } else { assert s[i] == YEARLESS[i - 4]; }
    }
  }

  /** Any year in any digits, followed by the rest of one instant. */
  lemma YearIsRead(p: Platform, year: string)
    requires Sound(p) && |year| == 4 && AllDigits(p, year)
    ensures Shaped(p, year + YEARLESS) && Admitted(year + YEARLESS)
    ensures Read(p, year + YEARLESS) == Fields(Number(p, year), 9, 15, 10, 11, 12, 123456)
  {
    hide Number, AllDigits, Shaped, Admitted;
    var s := year + YEARLESS;
    YearIsShaped(p, year);
    AsciiValues(p);
    hide Sound;
    TwoDigits(p, s[4..6]);
    TwoDigits(p, s[6..8]);
    TwoDigits(p, s[9..11]);
    TwoDigits(p, s[11..13]);
    TwoDigits(p, s[13..15]);
    SixDigits(p, s[16..22]);
    FourDigits(p, s[16..22][..4]);
    assert s[0..4] == year;
  }

  lemma AsciiValues(p: Platform)
    requires Sound(p)
    ensures p.value('0') == Some(0) && p.value('1') == Some(1) && p.value('2') == Some(2) && p.value('3') == Some(3)
    ensures p.value('4') == Some(4) && p.value('5') == Some(5) && p.value('6') == Some(6) && p.value('9') == Some(9)
  {
    assert Digit(0) == '0' && Digit(1) == '1' && Digit(2) == '2' && Digit(3) == '3' && Digit(4) == '4';
    assert Digit(5) == '5' && Digit(6) == '6' && Digit(9) == '9';
  }

  lemma YearIsSpelt(p: Platform, year: string)
    requires Sound(p) && |year| == 4 && AllDigits(p, year) && Number(p, year) == 2024
    ensures ParseStopId(p, PREFIX + (year + YEARLESS)) == Some(Instant(Fields(2024, 9, 15, 10, 11, 12, 123456)))
  {
    hide Number, Read, Shaped, Admitted, Instant, Sound;
    YearIsRead(p, year);
    assert (PREFIX + (year + YEARLESS))[|PREFIX|..] == year + YEARLESS;
  }

  /** An instant can have two spellings: Arabic-Indic digits in the year read as the same instant. */
  lemma TwoSpellings(p: Platform)
    requires Sound(p)
    requires p.value('\U{0660}') == Some(0) && p.value('\U{0662}') == Some(2) && p.value('\U{0664}') == Some(4)
    ensures PREFIX + (ARABIC_YEAR + YEARLESS) != PREFIX + (LATIN_YEAR + YEARLESS)
    ensures ParseStopId(p, PREFIX + (ARABIC_YEAR + YEARLESS)) == ParseStopId(p, PREFIX + (LATIN_YEAR + YEARLESS))
         == Some(Instant(Fields(2024, 9, 15, 10, 11, 12, 123456)))
  {
    hide Number, Instant, ParseStopId;
    AsciiValues(p);
    FourDigits(p, ARABIC_YEAR);
    FourDigits(p, LATIN_YEAR);
    YearIsSpelt(p, ARABIC_YEAR);
    YearIsSpelt(p, LATIN_YEAR);
    assert (PREFIX + (ARABIC_YEAR + YEARLESS))[|PREFIX|] != (PREFIX + (LATIN_YEAR + YEARLESS))[|PREFIX|];
  }
}
