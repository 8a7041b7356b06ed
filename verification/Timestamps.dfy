/** Ledger timestamps: the text an instant is written as, and its reading. */
module Timestamps {
  import opened Words
  import opened Calendar
  import opened Decimal

  // The C library's %0Nd: a sign counts towards the width.
  function Field(n: int, width: nat): string {
    if n >= 0 then Padded(n, width)
    else if |Digits(-n)| + 1 < width then "-" + Padded(-n, width - 1)
    else "-" + Digits(-n)
  }

  function FormatTimestamp(tp: int): string {
    var d, t := ToDate(tp), ToTime(tp);
    Field(d.year, 4) + "-" + Field(d.month, 2) + "-" + Field(d.day, 2) + " " +
    Field(t.hour, 2) + ":" + Field(t.minute, 2) + ":" + Field(t.second, 2)
  }

  /** An instant reads year, month, day, hour, minute and second. */
  lemma WrittenAs()
    ensures FormatTimestamp(951827696) == "2000-02-29 12:34:56"
  {
    hide Digits, Padded;
    LeapDay();
    TwoDigits();
  }

  lemma LeapDay()
    ensures ToDate(951827696) == CalendarDate(2000, 2, 29) && ToTime(951827696) == TimeOfDay(12, 34, 56)
  {
    hide DateOf, DayNumber;
    assert MakeTime(CalendarDate(2000, 2, 29), TimeOfDay(12, 34, 56)) == Some(951827696) by {
      assert DayNumber(CalendarDate(2000, 2, 29)) == 11016 by {
        KnownLeapDay();
      }
    }
    PartsOfInstant(CalendarDate(2000, 2, 29), TimeOfDay(12, 34, 56));
  }

  lemma KnownLeapDay()
    ensures DayNumber(CalendarDate(2000, 2, 29)) == 11016
  {
  }

  lemma TwoDigits()
    ensures Padded(2000, 4) == "2000" && Padded(2, 2) == "02" && Padded(29, 2) == "29"
    ensures Padded(12, 2) == "12" && Padded(34, 2) == "34" && Padded(56, 2) == "56"
  {
  }

  method Number(text: string, pos: nat, len: nat) returns (r: Option<nat>)
    requires pos + len <= |text|
    ensures r == None <==> !AllDigits(text[pos..pos + len])
    ensures r.Some? ==> r.value == Value(text[pos..pos + len])
  {
    var value := 0;
    for i := 0 to len
      invariant AllDigits(text[pos..pos + i]) && value == Value(text[pos..pos + i])
    {
      assert text[pos..pos + i + 1] == text[pos..pos + i] + [text[pos + i]];
      if !IsDigit(text[pos + i]) {
        assert text[pos..pos + len][i] == text[pos + i];
        return None;
      }
      value := value * 10 + DigitValue(text[pos + i]);
    }
    r := Some(value);
  }

  predicate Shaped(text: string) {
    && |text| == 19 && text[4] == '-' && text[7] == '-' && text[10] == ' ' && text[13] == ':' && text[16] == ':'
    && AllDigits(text[0..4]) && AllDigits(text[5..7]) && AllDigits(text[8..10])
    && AllDigits(text[11..13]) && AllDigits(text[14..16]) && AllDigits(text[17..19])
  }

  // Only the date is checked; hours, minutes and seconds are taken as they are.
  function Parsed(text: string): Option<int> {
    if !Shaped(text) then None
    else MakeTime(CalendarDate(Value(text[0..4]), Value(text[5..7]), Value(text[8..10])),
                  TimeOfDay(Value(text[11..13]), Value(text[14..16]), Value(text[17..19])))
  }

  method ParseLedgerTimestamp(text: string) returns (r: Option<int>)
    ensures r == Parsed(text)
  {
    hide Value, AllDigits;
    if |text| != 19 || text[4] != '-' || text[7] != '-' || text[10] != ' ' || text[13] != ':' || text[16] != ':' {
      return None;
    }
    var year := Number(text, 0, 4);
    var month := Number(text, 5, 2);
    var day := Number(text, 8, 2);
    var hour := Number(text, 11, 2);
    var minute := Number(text, 14, 2);
    var second := Number(text, 17, 2);
    if year == None || month == None || day == None || hour == None || minute == None || second == None {
      return None;
    }
    r := MakeTime(CalendarDate(year.value, month.value, day.value), TimeOfDay(hour.value, minute.value, second.value));
  }

  lemma FieldFits(n: nat, width: nat)
    requires width > 0 && n < Power10(width)
    ensures |Field(n, width)| == width && AllDigits(Field(n, width)) && Value(Field(n, width)) == n
  {
    hide Digits, Value, Power10;
    DigitsFit(n, width);
    ValueOfPadded(n, width);
  }

  lemma SmallPowers()
    ensures Power10(2) == 100 && Power10(4) == 10000
  {
  }

  // A field and its separator, where the reader looks.
  lemma NextField(text: string, at: nat, field: string, c: char, rest: string)
    requires at <= |text| && text[at..] == field + ([c] + rest)
    ensures |text| == at + |field| + 1 + |rest|
    ensures text[at..at + |field|] == field && text[at + |field|] == c && text[at + |field| + 1..] == rest
  {
    var tail := text[at..];
    assert tail[..|field|] == field && tail[|field|] == c && tail[|field| + 1..] == rest;
  }

  lemma Behind(before: string, c: char, field: string, rest: string)
    ensures before + [c] + field + rest == before + ([c] + (field + rest))
  {
  }

  // Six fields of the right widths are found where the reader looks.
  lemma SixFields(y: string, mo: string, d: string, h: string, mi: string, s: string)
    requires |y| == 4 && |mo| == |d| == |h| == |mi| == |s| == 2
    ensures var text := y + "-" + mo + "-" + d + " " + h + ":" + mi + ":" + s;
            && |text| == 19 && text[4] == '-' && text[7] == '-' && text[10] == ' ' && text[13] == ':' && text[16] == ':'
            && text[0..4] == y && text[5..7] == mo && text[8..10] == d && text[11..13] == h && text[14..16] == mi && text[17..19] == s
  {
    var text := y + "-" + mo + "-" + d + " " + h + ":" + mi + ":" + s;
    var seconds := s;
    var minutes := mi + ([':'] + seconds);
    var hours := h + ([':'] + minutes);
    var days := d + ([' '] + hours);
    var months := mo + (['-'] + days);
    var p1 := y + ['-'] + mo;
    var p2 := p1 + ['-'] + d;
    var p3 := p2 + [' '] + h;
    var p4 := p3 + [':'] + mi;
    Behind(p4, ':', s, "");
    Behind(p3, ':', mi, [':'] + seconds);
    Behind(p2, ' ', h, [':'] + minutes);
    Behind(p1, '-', d, [' '] + hours);
    Behind(y, '-', mo, ['-'] + days);
    assert text == p4 + ([':'] + seconds) == y + (['-'] + months);
    assert text[0..] == text;
    NextField(text, 0, y, '-', months);
    NextField(text, 5, mo, '-', days);
    NextField(text, 8, d, ' ', hours);
    NextField(text, 11, h, ':', minutes);
    NextField(text, 14, mi, ':', seconds);
  }

  lemma ReadsBack(tp: int)
    requires 0 <= ToDate(tp).year <= 9999
    ensures Parsed(FormatTimestamp(tp)) == Some(tp)
  {
    hide Field, Value, AllDigits, ToDate, ToTime, MakeTime;
    var d, t := ToDate(tp), ToTime(tp);
    SmallPowers();
    FieldFits(d.year, 4);
    FieldFits(d.month, 2);
    DayBelow(d);
    FieldFits(d.day, 2);
    FieldFits(t.hour, 2);
    FieldFits(t.minute, 2);
    FieldFits(t.second, 2);
    SixFields(Field(d.year, 4), Field(d.month, 2), Field(d.day, 2), Field(t.hour, 2), Field(t.minute, 2), Field(t.second, 2));
    InstantOfParts(tp);
  }

  lemma DayBelow(d: CalendarDate)
    requires ValidDate(d)
    ensures 1 <= d.day <= 31
  {
  }

  // Other years do not fit four digits.
  lemma OtherYears(tp: int)
    requires !(0 <= ToDate(tp).year <= 9999)
    ensures Parsed(FormatTimestamp(tp)) == None
  {
    hide Value, Digits, Padded, ToDate, ToTime, MakeTime;
    var d, t := ToDate(tp), ToTime(tp);
    var text := FormatTimestamp(tp);
    SmallPowers();
    DayBelow(d);
    FieldFits(d.month, 2);
    FieldFits(d.day, 2);
    FieldFits(t.hour, 2);
    FieldFits(t.minute, 2);
    FieldFits(t.second, 2);
    var y := Field(d.year, 4);
    assert |text| == |y| + 15 && text[..|y|] == y;
    if d.year > 9999 {
      DigitsFit(d.year, 4);
      PaddedAtLeast(d.year, 4);
    } else {
      assert y[0] == '-';
      assert |text| == 19 ==> text[0..4][0] == '-';
    }
  }

  lemma PaddedAtLeast(n: nat, width: nat)
    ensures |Padded(n, width)| >= |Digits(n)|
  {
  }

  /** A timestamp is recovered from its text exactly in the years 0 to 9999. */
  lemma TimestampReadsBack(tp: int)
    ensures Parsed(FormatTimestamp(tp)) == Some(tp) <==> 0 <= ToDate(tp).year <= 9999
  {
    hide Parsed, FormatTimestamp, ToDate;
    if 0 <= ToDate(tp).year <= 9999 {
      ReadsBack(tp);
    } else {
      OtherYears(tp);
    }
  }
}
