/** The span journal as one packed text, and the loop that takes it apart. */
module RunJournal {
  import opened Words
  import opened Lists
  import opened Decimal
  import opened RunProtocol

  datatype Line = Line(index: nat, rows: nat, digest: string)

  // index:rows:digest, the lines separated by semicolons.
  function Item(l: Line): string {
    Digits(l.index) + ":" + Digits(l.rows) + ":" + l.digest
  }

  function Pack(lines: seq<Line>): string {
    if lines == [] then "" else if |lines| == 1 then Item(lines[0]) else Item(lines[0]) + ";" + Pack(lines[1..])
  }

  // The position of a character from a place on; the length when there is none.
  function Find(s: string, c: char, from: nat): (i: nat)
    requires from <= |s|
    ensures from <= i <= |s| && (i < |s| ==> s[i] == c) && forall k :: from <= k < i ==> s[k] != c
    decreases |s| - from
  {
    if from == |s| || s[from] == c then from else Find(s, c, from + 1)
  }

  /** None for anything but digits, or a number that does not fit. */
  function ParseU64(s: string): Option<nat> {
    if s == "" || !AllDigits(s) || Value(s) >= TWO64 then None else Some(Value(s))
  }

  // One item; None when a colon is missing or a number is malformed.
  function ParseItem(item: string): Option<Line> {
    var first := Find(item, ':', 0);
    if first == |item| then None
    else
      var second := Find(item, ':', first + 1);
      if second == |item| then None
      else
        var index, rows := ParseU64(item[..first]), ParseU64(item[first + 1..second]);
        if index == None || rows == None then None
        else Some(Line(index.value % TWO32, rows.value, item[second + 1..]))
  }

  predicate NoColon(s: string) {
    forall i :: 0 <= i < |s| ==> s[i] != ':'
  }

  predicate IsNumber(s: string) {
    s != "" && AllDigits(s) && Value(s) < TWO64
  }

  // The two numbers and the digest, cut at the first two colons.
  predicate SplitsAs(item: string, a: string, b: string, digest: string) {
    item == a + ":" + b + ":" + digest && NoColon(a) && NoColon(b)
  }

  /** An item is taken exactly when it has two colons with numbers of 64 bits before
      them; it reads as those numbers, the index cut to 32 bits, and the rest. */
  lemma ItemExactly(item: string, a: string, b: string, digest: string)
    requires SplitsAs(item, a, b, digest)
    ensures ParseItem(item) ==
              if IsNumber(a) && IsNumber(b) then Some(Line(Value(a) % TWO32, Value(b), digest)) else None
  {
    hide Find, Value, AllDigits;
    FieldsAt(a, b, digest);
  }

  lemma ItemRefused(item: string)
    ensures ParseItem(item).Some? ==> exists a, b, digest :: SplitsAs(item, a, b, digest)
  {
    var first := Find(item, ':', 0);
    if first < |item| {
      var second := Find(item, ':', first + 1);
      if second < |item| {
        var a, b, digest := item[..first], item[first + 1..second], item[second + 1..];
        assert item == a + ":" + b + ":" + digest;
        assert SplitsAs(item, a, b, digest);
      }
    }
  }

  function Parse(packed: string): Option<seq<Line>>
    decreases |packed|
  {
    if packed == "" then Some([])
    else
      var end := Find(packed, ';', 0);
      var line := ParseItem(packed[..end]);
      if line == None then None
      else
        match Parse(packed[if end < |packed| then end + 1 else end..])
        case None => None
        case Some(rest) => Some([line.value] + rest)
  }

  // Lines already taken, in front of what the rest parses to.
  function Prepend(lines: seq<Line>, r: Option<seq<Line>>): Option<seq<Line>> {
    match r case None => None case Some(more) => Some(lines + more)
  }

  lemma PrependNext(lines: seq<Line>, l: Line, r: Option<seq<Line>>)
    ensures Prepend([], r) == r && Prepend(lines + [l], r) == Prepend(lines, Prepend([l], r))
    ensures Prepend(lines, Some([])) == Some(lines)
  {
    assert lines + [] == lines;
    if r.Some? {
      assert [] + r.value == r.value && lines + ([l] + r.value) == lines + [l] + r.value;
    }
  }

  lemma ParseNext(packed: string)
    requires packed != ""
    ensures var end := Find(packed, ';', 0);
            var line := ParseItem(packed[..end]);
            Parse(packed) == if line == None then None
                             else Prepend([line.value], Parse(packed[if end < |packed| then end + 1 else end..]))
  {
    hide ParseItem;
  }

  /** Consumes the text item by item. */
  method ParseJournal(packed: string) returns (r: Option<seq<Line>>)
    ensures r == Parse(packed)
  {
    hide ParseItem, Find, Prepend, Parse;
    var lines: seq<Line> := [];
    var rest := packed;
    PrependNext([], Line(0, 0, ""), Parse(packed));
    while rest != ""
      invariant Parse(packed) == Prepend(lines, Parse(rest))
      decreases |rest|
    {
      ParseNext(rest);
      var end := Find(rest, ';', 0);
      var item := rest[..end];
      var line := ParseItem(item);
      if line == None {
        NothingParsed(lines);
        return None;
      }
      var next := rest[if end < |rest| then end + 1 else end..];
      PrependNext(lines, line.value, Parse(next));
      SomethingFound(rest);
      lines := lines + [line.value];
      rest := next;
    }
    NoText();
    PrependNext(lines, Line(0, 0, ""), None);
    r := Some(lines);
  }

  lemma NothingParsed(lines: seq<Line>)
    ensures Prepend(lines, None) == None
  {
  }

  lemma NoText()
    ensures Parse("") == Some([])
  {
  }

  // An empty item is refused, so every accepted one is consumed.
  lemma SomethingFound(rest: string)
    requires rest != "" && ParseItem(rest[..Find(rest, ';', 0)]).Some?
    ensures Find(rest, ';', 0) > 0
  {
  }

  predicate Packable(l: Line) {
    l.index < TWO32 && l.rows < TWO64 && forall i :: 0 <= i < |l.digest| ==> l.digest[i] != ';'
  }

  lemma FindAt(s: string, c: char, from: nat, i: nat)
    requires from <= i <= |s| && (i < |s| ==> s[i] == c) && forall k :: from <= k < i ==> s[k] != c
    ensures Find(s, c, from) == i
  {
  }

  lemma ParseDigits(n: nat)
    requires n < TWO64
    ensures ParseU64(Digits(n)) == Some(n)
  {
    ValueOfDigits(n);
  }

  // Two fields without colons are cut at the first two colons.
  lemma FieldsAt(a: string, b: string, c: string)
    requires (forall i :: 0 <= i < |a| ==> a[i] != ':') && forall i :: 0 <= i < |b| ==> b[i] != ':'
    ensures var item := a + ":" + b + ":" + c;
            && |item| == |a| + |b| + |c| + 2
            && Find(item, ':', 0) == |a| && Find(item, ':', |a| + 1) == |a| + 1 + |b|
            && item[..|a|] == a && item[|a| + 1..|a| + 1 + |b|] == b && item[|a| + 1 + |b| + 1..] == c
  {
    hide Find;
    var item, tail := a + ":" + b + ":" + c, b + ":" + c;
    assert item == a + ":" + tail;
    forall k | |a| + 1 <= k < |a| + 1 + |b| ensures item[k] != ':' {
      assert item[k] == b[k - |a| - 1];
    }
    FindAt(item, ':', 0, |a|);
    FindAt(item, ':', |a| + 1, |a| + 1 + |b|);
  }

  lemma ItemReads(l: Line)
    requires Packable(l)
    ensures ParseItem(Item(l)) == Some(l)
  {
    hide Digits, ParseU64, Find;
    FieldsAt(Digits(l.index), Digits(l.rows), l.digest);
    ParseDigits(l.index);
    ParseDigits(l.rows);
  }

  lemma ItemHasNoSemicolon(l: Line)
    requires Packable(l)
    ensures Item(l) != "" && forall i :: 0 <= i < |Item(l)| ==> Item(l)[i] != ';'
  {
    hide Digits;
  }

  /** A packed journal reads back line by line. */
  lemma {:induction false} JournalReadsBack(lines: seq<Line>)
    requires forall i :: 0 <= i < |lines| ==> Packable(lines[i])
    ensures Parse(Pack(lines)) == Some(lines)
  {
    hide ParseItem, Item, Find;
    if lines != [] {
      var packed, item := Pack(lines), Item(lines[0]);
      ItemHasNoSemicolon(lines[0]);
      ItemReads(lines[0]);
      FindAt(packed, ';', 0, |item|);
      assert packed[..|item|] == item;
      JournalReadsBack(lines[1..]);
      if |lines| == 1 {
        assert packed[|item|..] == "" && lines[1..] == [];
      } else {
        assert packed[|item| + 1..] == Pack(lines[1..]);
      }
      assert [lines[0]] + lines[1..] == lines;
    }
  }

  // ---- The journal the ledger resumes from ----

  // A journal row as it is packed; a missing digest as an empty field.
  function LineOf(index: nat, e: Entry, hex: seq<Cell> -> string): Line {
    Line(index, e.rows, match e.digest case Some(d) => hex(d) case None => "")
  }

  ghost predicate Served(lines: seq<Line>, i: nat, m: map<nat, Entry>, hex: seq<Cell> -> string)
    requires i < |lines|
  {
    lines[i].index in m && lines[i] == LineOf(lines[i].index, m[lines[i].index], hex)
  }

  // The rows of a run's journal, by ascending span.
  ghost predicate Serves(lines: seq<Line>, m: map<nat, Entry>, hex: seq<Cell> -> string) {
    && (forall i, j :: 0 <= i < j < |lines| ==> lines[i].index < lines[j].index)
    && (forall i :: 0 <= i < |lines| ==> Served(lines, i, m, hex))
    && forall k :: k in m ==> k in Indices(lines)
  }

  function Indices(lines: seq<Line>): (s: seq<nat>)
    ensures |s| == |lines| && forall i :: 0 <= i < |s| ==> s[i] == lines[i].index
  {
    seq(|lines|, i requires 0 <= i < |lines| => lines[i].index)
  }

  // What the ledger asks of the lines before it resumes.
  predicate Resumable(lines: seq<Line>) {
    forall i :: 0 <= i < |lines| ==> lines[i].index == i && lines[i].digest != ""
  }

  // Digests are not empty and hold no separator.
  ghost predicate Hex(hex: seq<Cell> -> string) {
    forall d :: hex(d) != "" && forall i :: 0 <= i < |hex(d)| ==> hex(d)[i] != ';'
  }

  lemma AllServed(lines: seq<Line>, m: map<nat, Entry>, hex: seq<Cell> -> string)
    requires Serves(lines, m, hex)
    ensures |lines| == |m|
  {
    DistinctSize(Indices(lines));
    assert Elements(Indices(lines)) == m.Keys by {
      forall k ensures k in Elements(Indices(lines)) <==> k in m.Keys {
        if k in Indices(lines) {
          var i: nat :| i < |lines| && Indices(lines)[i] == k;
          assert Served(lines, i, m, hex);
        }
      }
    }
  }

  lemma {:induction false} InPlace(lines: seq<Line>, m: map<nat, Entry>, hex: seq<Cell> -> string, i: nat)
    requires Serves(lines, m, hex) && i < |lines| && forall k: nat :: k <= i ==> k in m
    ensures lines[i].index == i
  {
    assert i in Indices(lines);
    var j: nat :| j < |lines| && Indices(lines)[j] == i;
    if i > 0 {
      InPlace(lines, m, hex, i - 1);
    }
  }

  lemma AllPackable(lines: seq<Line>, m: map<nat, Entry>, hex: seq<Cell> -> string, i: nat)
    requires Serves(lines, m, hex) && Hex(hex) && i < |lines|
    requires forall k :: k in m ==> k < TWO32 && m[k].rows < TWO64
    ensures Packable(lines[i])
  {
    assert Served(lines, i, m, hex);
  }

  lemma ResumesFrom(lines: seq<Line>, m: map<nat, Entry>, hex: seq<Cell> -> string)
    requires Serves(lines, m, hex) && Hex(hex) && |lines| == |m|
    ensures Resumable(lines) ==> forall k: nat :: k < |m| ==> k in m && m[k].digest.Some? && lines[k] == LineOf(k, m[k], hex)
    ensures (forall k: nat :: k < |m| ==> k in m && m[k].digest.Some?) ==> Resumable(lines)
  {
    hide Serves;
    if Resumable(lines) {
      forall k: nat | k < |m| ensures k in m && m[k].digest.Some? && lines[k] == LineOf(k, m[k], hex) {
        assert lines[k].index == k;
        IsServed(lines, m, hex, k);
      }
    }
    if forall k: nat :: k < |m| ==> k in m && m[k].digest.Some? {
      forall i | 0 <= i < |lines| ensures lines[i].index == i && lines[i].digest != "" {
        InPlace(lines, m, hex, i);
        IsServed(lines, m, hex, i);
        assert m[i].digest.Some?;
      }
    }
  }

  lemma IsServed(lines: seq<Line>, m: map<nat, Entry>, hex: seq<Cell> -> string, i: nat)
    requires Serves(lines, m, hex) && i < |lines|
    ensures Served(lines, i, m, hex)
  {
  }

  /** The text the ledger reads is taken apart into the journal's rows, its checks
      on them pass exactly when the journal resumes, and then line i is entry i. */
  lemma JournalResumes(lines: seq<Line>, m: map<nat, Entry>, hex: seq<Cell> -> string)
    requires Serves(lines, m, hex) && Hex(hex)
    requires forall k :: k in m ==> k < TWO32 && m[k].rows < TWO64
    ensures Parse(Pack(lines)) == Some(lines)
    ensures Resumable(lines) <==> Contiguous(m).Some?
    ensures Resumable(lines) ==>
      |Contiguous(m).value| == |lines| && forall i :: 0 <= i < |lines| ==> lines[i] == LineOf(i, Contiguous(m).value[i], hex)
  {
    hide Parse, Pack, Serves, Packable, Hex, LineOf, Resumable;
    AllServed(lines, m, hex);
    forall i | 0 <= i < |lines| ensures Packable(lines[i]) {
      AllPackable(lines, m, hex, i);
    }
    JournalReadsBack(lines);
    ResumesFrom(lines, m, hex);
  }
}
