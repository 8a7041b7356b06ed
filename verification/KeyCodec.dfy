/** Rendering an entity key as its prefix and padded number, and reading it back
    through the same table. */
module KeyCodec {
  import opened Words
  import opened Keys
  import opened Decimal

  // No tabled layout allows the number zero.
  datatype Layout = Layout(prefix: string, width: nat)

  datatype Entry = Entry(role: Role, bank: Bank, layout: Layout)

  const TABLE: seq<Entry> :=
    [Entry(Customer, Internal, Layout("C", 11)), Entry(Account, Internal, Layout("A", 10)),
     Entry(Merchant, Internal, Layout("M", 8)), Entry(Merchant, External, Layout("XM", 8)),
     Entry(Employer, Internal, Layout("E", 8)), Entry(Employer, External, Layout("XE", 8)),
     Entry(Landlord, Internal, Layout("LI", 7)), Entry(Landlord, External, Layout("XL", 8)),
     Entry(Client, Internal, Layout("IC", 8)), Entry(Client, External, Layout("XC", 8)),
     Entry(Platform, External, Layout("XP", 8)), Entry(Processor, External, Layout("XS", 8)),
     Entry(Family, External, Layout("XF", 8)),
     Entry(Business, Internal, Layout("BOP", 7)), Entry(Business, External, Layout("XO", 8)),
     Entry(Brokerage, Internal, Layout("BRK", 7)), Entry(Brokerage, External, Layout("XB", 8)),
     Entry(Card, Internal, Layout("L", 9)), Entry(GeneralLedger, Internal, Layout("GL", 8))]

  // The layout table at a role and a bank, by position in the entry list.
  function IndexAt(role: Role, bank: Bank): Option<nat> {
    match (role, bank)
    case (Customer, Internal) => Some(0)
    case (Account, Internal) => Some(1)
    case (Merchant, Internal) => Some(2)
    case (Merchant, External) => Some(3)
    case (Employer, Internal) => Some(4)
    case (Employer, External) => Some(5)
    case (Landlord, Internal) => Some(6)
    case (Landlord, External) => Some(7)
    case (Client, Internal) => Some(8)
    case (Client, External) => Some(9)
    case (Platform, External) => Some(10)
    case (Processor, External) => Some(11)
    case (Family, External) => Some(12)
    case (Business, Internal) => Some(13)
    case (Business, External) => Some(14)
    case (Brokerage, Internal) => Some(15)
    case (Brokerage, External) => Some(16)
    case (Card, Internal) => Some(17)
    case (GeneralLedger, Internal) => Some(18)
    case _ => None
  }

  /** The table holds one entry for each role and bank that go together. */
  lemma TableIsIndexed(role: Role, bank: Bank, i: nat)
    ensures IndexAt(role, bank) == Some(i) <==> i < |TABLE| && TABLE[i].role == role && TABLE[i].bank == bank
    ensures IndexAt(role, bank).Some? <==> Allows(role, bank)
  {
    assert |TABLE| == 19;
  }

  predicate Alphabetic(s: string) {
    forall i :: 0 <= i < |s| ==> 'A' <= s[i] <= 'Z'
  }

  lemma Prefixes(i: nat)
    requires i < |TABLE|
    ensures 1 <= |TABLE[i].layout.prefix| <= 3 && Alphabetic(TABLE[i].layout.prefix) && 7 <= TABLE[i].layout.width <= 11
  {
    assert |TABLE| == 19;
  }

  lemma PrefixesDiffer(i: nat, j: nat)
    requires i < j < |TABLE|
    ensures TABLE[i].layout.prefix != TABLE[j].layout.prefix
  {
    assert |TABLE| == 19;
  }

  function LayoutOf(k: Key): Option<Layout> {
    var i := IndexAt(k.role, k.bank);
    if i == None then None else (TableIsIndexed(k.role, k.bank, i.value); Some(TABLE[i.value].layout))
  }

  function Rendered(l: Layout, n: nat): string {
    l.prefix + Padded(n, l.width)
  }

  /** None for a role and bank that do not go together, or the number zero. */
  function Format(k: Key): Option<string> {
    var l := LayoutOf(k);
    if l == None || k.number == 0 then None else Some(Rendered(l.value, k.number))
  }

  /** How some keys read. */
  lemma KeysRead()
    ensures Format(Key(Customer, Internal, 42)) == Some("C00000000042")
    ensures Format(Key(Merchant, External, 7)) == Some("XM00000007")
    ensures Format(Key(Card, Internal, 123)) == Some("L000000123")
    ensures Format(Key(Customer, External, 42)) == None && Format(Key(Card, Internal, 0)) == None
  {
    ThreeNumbers();
    TableIsIndexed(Customer, Internal, 0);
    TableIsIndexed(Merchant, External, 3);
    TableIsIndexed(Card, Internal, 17);
    assert "C" + "00000000042" == "C00000000042" && "XM" + "00000007" == "XM00000007" && "L" + "000000123" == "L000000123";
  }

  lemma ThreeNumbers()
    ensures Padded(42, 11) == "00000000042" && Padded(7, 8) == "00000007" && Padded(123, 9) == "000000123"
  {
    assert Digits(42) == "42" && Digits(7) == "7" && Digits(123) == "123";
  }

  // ---- Reading back ----

  predicate Accepts(e: Entry, s: string) {
    |e.layout.prefix| < |s| && s[..|e.layout.prefix|] == e.layout.prefix && AllDigits(s[|e.layout.prefix|..])
  }

  // A letter after the prefix is no digit, and a digit is in no prefix.
  lemma AcceptsSplits(e: Entry, prefix: string, digits: string)
    requires Alphabetic(prefix) && Alphabetic(e.layout.prefix) && AllDigits(digits) && digits != ""
    ensures Accepts(e, prefix + digits) <==> e.layout.prefix == prefix
  {
    var s, p := prefix + digits, e.layout.prefix;
    if |p| < |prefix| {
      if |p| < |s| {
        assert s[|p|..][0] == prefix[|p|];
      }
    } else if |p| > |prefix| {
      assert |p| <= |s| ==> s[..|p|][|prefix|] == digits[0];
      assert !IsDigit(p[|prefix|]);
    } else {
      assert s[..|p|] == prefix && s[|p|..] == digits;
    }
  }

  /** At most one entry accepts a rendered key. */
  lemma AcceptedOnce(s: string, i: nat, j: nat)
    requires i < |TABLE| && j < |TABLE| && Accepts(TABLE[i], s) && Accepts(TABLE[j], s)
    ensures i == j
  {
    var p := TABLE[i].layout.prefix;
    Prefixes(i);
    Prefixes(j);
    assert s == p + s[|p|..];
    AcceptsSplits(TABLE[j], p, s[|p|..]);
    if i < j {
      PrefixesDiffer(i, j);
    } else if j < i {
      PrefixesDiffer(j, i);
    }
  }

  ghost predicate AcceptedBy(s: string, i: nat) {
    i < |TABLE| && Accepts(TABLE[i], s)
  }

  // What an accepting entry makes of the digits.
  function Decoded(e: Entry, s: string): Option<Key>
    requires Accepts(e, s)
  {
    var number := Value(s[|e.layout.prefix|..]);
    if number == 0 || number >= TWO64 then None else Some(Key(e.role, e.bank, number))
  }

  /** Reads a key back: the entry with the longest accepting prefix. */
  method ParseKey(s: string) returns (r: Option<Key>)
    ensures (forall i: nat :: !AcceptedBy(s, i)) ==> r == None
    ensures forall i: nat :: AcceptedBy(s, i) ==> r == Decoded(TABLE[i], s)
  {
    hide Accepts, Value;
    var found: Option<nat> := None;
    for i := 0 to |TABLE|
      invariant found == None ==> forall k: nat :: k < i ==> !AcceptedBy(s, k)
      invariant found.Some? ==> AcceptedBy(s, found.value)
    {
      if Accepts(TABLE[i], s) {
        if found == None || |TABLE[i].layout.prefix| > |TABLE[found.value].layout.prefix| {
          found := Some(i);
        }
      }
    }
    if found == None {
      return None;
    }
    forall i: nat | AcceptedBy(s, i) ensures i == found.value {
      AcceptedOnce(s, i, found.value);
    }
    r := Decoded(TABLE[found.value], s);
  }

  /** Only the key's own entry accepts what it was rendered as, and reads the key
      back from it. */
  lemma FormatReadsBack(k: Key)
    requires Format(k).Some?
    ensures var i := IndexAt(k.role, k.bank).value;
            AcceptedBy(Format(k).value, i) && Decoded(TABLE[i], Format(k).value) == Some(k)
    ensures forall i: nat :: AcceptedBy(Format(k).value, i) ==> i == IndexAt(k.role, k.bank).value
  {
    hide Value, Padded, AllDigits;
    var i := IndexAt(k.role, k.bank).value;
    TableIsIndexed(k.role, k.bank, i);
    var l, s := TABLE[i].layout, Format(k).value;
    Prefixes(i);
    PaddedLength(k.number, l.width);
    AcceptsSplits(TABLE[i], l.prefix, Padded(k.number, l.width));
    assert s[|l.prefix|..] == Padded(k.number, l.width);
    ValueOfPadded(k.number, l.width);
    forall j: nat | AcceptedBy(s, j) ensures j == i {
      AcceptedOnce(s, j, i);
    }
  }

  lemma PaddedLength(n: nat, width: nat)
    ensures Padded(n, width) != "" && |Padded(n, width)| >= width
  {
  }

  /** Different keys are rendered differently. */
  lemma FormatOneToOne(k: Key, m: Key)
    requires Format(k).Some? && Format(k) == Format(m)
    ensures k == m
  {
    hide Format, AcceptedBy, Decoded;
    FormatReadsBack(k);
    FormatReadsBack(m);
  }

  /** What reads as a key is that key's rendering exactly when its number is
      written at the table's width, or longer only as needed. */
  lemma ReadingIsCanonical(s: string, i: nat)
    requires AcceptedBy(s, i) && Decoded(TABLE[i], s).Some?
    ensures var k := Decoded(TABLE[i], s).value;
            && Format(k).Some? && ValidKey(k)
            && (Format(k).value == s <==> |s| == |TABLE[i].layout.prefix| + |Padded(k.number, TABLE[i].layout.width)|)
  {
    hide Padded, Value, AllDigits;
    var k, p := Decoded(TABLE[i], s).value, TABLE[i].layout.prefix;
    TableIsIndexed(TABLE[i].role, TABLE[i].bank, i);
    assert s == p + s[|p|..];
    if |s| == |p| + |Padded(k.number, TABLE[i].layout.width)| {
      ValueOfPadded(k.number, TABLE[i].layout.width);
      SameValue(s[|p|..], Padded(k.number, TABLE[i].layout.width));
    }
  }

  // Digit strings of one length are told apart by their value.
  lemma {:induction false} SameValue(a: string, b: string)
    requires AllDigits(a) && AllDigits(b) && |a| == |b| && Value(a) == Value(b)
    ensures a == b
  {
    hide Value, DigitValue;
    if a != "" {
      var m := |a| - 1;
      LastValue(a);
      LastValue(b);
      SameDigit(a[m], b[m]);
      SameValue(a[..m], b[..m]);
      assert a == a[..m] + [a[m]] && b == b[..m] + [b[m]];
    }
  }

  lemma LastValue(a: string)
    requires AllDigits(a) && a != ""
    ensures Value(a) == 10 * Value(a[..|a| - 1]) + DigitValue(a[|a| - 1])
    ensures Value(a) / 10 == Value(a[..|a| - 1]) && Value(a) % 10 == DigitValue(a[|a| - 1])
  {
  }

  lemma SameDigit(c: char, d: char)
    requires IsDigit(c) && IsDigit(d)
    ensures DigitValue(c) == DigitValue(d) ==> c == d
  {
  }

  // ---- The writer ----

  const BUFFER := 32

  method CountDigits(n: nat) returns (count: nat)
    ensures count == |Digits(n)|
  {
    var value := n;
    count := 1;
    while value >= 10
      invariant count + |Digits(value)| == 1 + |Digits(n)|
    {
      value := value / 10;
      count := count + 1;
    }
  }

  lemma TwentyDigits(n: u64)
    ensures |Digits(n)| <= 20
  {
    assert Power10(5) == 100000;
    assert Power10(10) == 10000000000;
    assert Power10(15) == 1000000000000000;
    assert Power10(20) == 100000000000000000000;
    DigitsFit(n, 20);
  }

  // The digits still to be written.
  function Left(n: nat): string {
    if n == 0 then "" else Digits(n)
  }

  /** Fills the buffer from the back: digits, then zeros up to the prefix. The
      size is None, and nothing written, for the number zero. */
  method Write(out: array<char>, l: Layout, number: u64) returns (size: Option<nat>)
    requires |l.prefix| + |Padded(number, l.width)| <= out.Length
    modifies out
    ensures size == None <==> number == 0
    ensures number == 0 ==> out[..] == old(out[..])
    ensures number != 0 ==> size == Some(|Rendered(l, number)|) && size.value <= out.Length && out[..size.value] == Rendered(l, number)
    ensures number != 0 ==> out[size.value..] == old(out[size.value..])
  {
    hide Digits, Padded;
    if number == 0 {
      return None;
    }
    PaddedIs(number, l.width);
    forall i | 0 <= i < |l.prefix| {
      out[i] := l.prefix[i];
    }
    var count := CountDigits(number);
    var padded := if count < l.width then l.width else count;
    var begin := |l.prefix|;
    var end := begin + padded;
    WritePadded(out, begin, end, number);
    assert out[..end] == out[..begin] + out[begin..end];
    size := Some(end);
  }

  method WritePadded(out: array<char>, begin: nat, end: nat, number: nat)
    requires number > 0 && begin + |Digits(number)| <= end <= out.Length
    modifies out
    ensures out[begin..end] == Zeros(end - begin - |Digits(number)|) + Digits(number)
    ensures out[..begin] == old(out[..begin]) && out[end..] == old(out[end..])
  {
    hide Digits, Zeros;
    var pos := WriteDigits(out, begin, end, number);
    ghost var tail := out[pos..];
    assert tail[end - pos..] == out[end..] && tail[..end - pos] == out[pos..end];
    WriteZeros(out, begin, pos);
    assert out[pos..] == tail;
    assert out[pos..][end - pos..] == out[end..] && out[pos..][..end - pos] == out[pos..end];
    assert out[begin..end] == out[begin..pos] + out[pos..end];
  }

  method WriteDigits(out: array<char>, begin: nat, end: nat, number: nat) returns (pos: nat)
    requires number > 0 && begin + |Digits(number)| <= end <= out.Length
    modifies out
    ensures begin <= pos <= end && out[pos..end] == Digits(number)
    ensures out[..begin] == old(out[..begin]) && out[end..] == old(out[end..])
  {
    hide Digits, Left, DigitChar;
    LeftIs(number);
    pos := end;
    var rest := number;
    assert out[pos..end] == "";
    while rest != 0
      invariant begin <= pos <= end && |Left(rest)| <= pos - begin
      invariant Left(rest) + out[pos..end] == Digits(number)
      invariant out[..begin] == old(out[..begin]) && out[end..] == old(out[end..])
    {
      LastDigit(rest);
      ghost var before := out[pos..end];
      pos := pos - 1;
      out[pos] := DigitChar(rest % 10);
      rest := rest / 10;
      assert out[pos..end] == [out[pos]] + before;
    }
  }

  method WriteZeros(out: array<char>, begin: nat, end: nat)
    requires begin <= end <= out.Length
    modifies out
    ensures out[begin..end] == Zeros(end - begin)
    ensures out[..begin] == old(out[..begin]) && out[end..] == old(out[end..])
  {
    var pos := end;
    while pos != begin
      invariant begin <= pos <= end && forall i :: pos <= i < end ==> out[i] == '0'
      invariant out[..begin] == old(out[..begin]) && out[end..] == old(out[end..])
    {
      pos := pos - 1;
      out[pos] := '0';
    }
  }

  lemma PaddedIs(n: nat, width: nat)
    ensures |Digits(n)| > 0
    ensures Padded(n, width) == Zeros(if |Digits(n)| < width then width - |Digits(n)| else 0) + Digits(n)
  {
  }

  lemma LeftIs(n: nat)
    ensures Left(0) == "" && (n > 0 ==> Left(n) == Digits(n))
  {
  }

  lemma LastDigit(n: nat)
    requires n > 0
    ensures Left(n) == Left(n / 10) + [DigitChar(n % 10)]
  {
  }

  /** Every tabled key fits the buffer it is rendered into. */
  lemma FitsBuffer(k: Key)
    requires LayoutOf(k).Some?
    ensures |Rendered(LayoutOf(k).value, k.number)| <= BUFFER
  {
    hide Digits;
    TableIsIndexed(k.role, k.bank, IndexAt(k.role, k.bank).value);
    Prefixes(IndexAt(k.role, k.bank).value);
    TwentyDigits(k.number);
  }

  method FormatKey(k: Key) returns (r: Option<string>)
    ensures r == Format(k)
  {
    hide Rendered, Padded;
    var l := LayoutOf(k);
    if l == None {
      return None;
    }
    FitsBuffer(k);
    RenderedLength(l.value, k.number);
    var bytes := new char[BUFFER](i => '0');
    var size := Write(bytes, l.value, k.number);
    if size == None {
      return None;
    }
    r := Some(bytes[..size.value]);
  }

  lemma RenderedLength(l: Layout, n: nat)
    ensures |Rendered(l, n)| == |l.prefix| + |Padded(n, l.width)|
  {
  }
}
