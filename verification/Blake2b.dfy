/** BLAKE2b: the function of RFC 7693 and the streaming state that computes it. */
module Blake2b {
  import opened Words
  import opened Arithmetic

  type Byte = x: int | 0 <= x < 256
  type Word = bv64

  const BLOCK := 128
  const MAX_DIGEST := 64
  const MAX_KEY := 64

  const IV: seq<Word> :=
    [0x6A09E667F3BCC908, 0xBB67AE8584CAA73B, 0x3C6EF372FE94F82B, 0xA54FF53A5F1D36F1,
     0x510E527FADE682D1, 0x9B05688C2B3E6C1F, 0x1F83D9ABFB41BD6B, 0x5BE0CD19137E2179]

  // The square of a number of 64 fractional digits has 128.
  predicate IsRootOf(prime: nat, whole: nat, digits: Word) {
    var root := whole * TWO64 + digits as nat;
    root * root <= prime * TWO64 * TWO64 < (root + 1) * (root + 1)
  }

  /** Section 2.6: the first 64 fractional digits of the square roots of the first
      eight primes. */
  lemma InitialVectorIs()
    ensures |IV| == 8
    ensures IsRootOf(2, 1, IV[0]) && IsRootOf(3, 1, IV[1]) && IsRootOf(5, 2, IV[2]) && IsRootOf(7, 2, IV[3])
    ensures IsRootOf(11, 3, IV[4]) && IsRootOf(13, 3, IV[5]) && IsRootOf(17, 4, IV[6]) && IsRootOf(19, 4, IV[7])
  {
  }

  const ALL_ONES: Word := 0xFFFF_FFFF_FFFF_FFFF

  // ---- The function of RFC 7693 ----

  // Section 2.7: ten permutations.
  const SIGMA: seq<seq<nat>> :=
    [[0, 1, 2, 3, 4, 5, 6, 7, 8, 9, 10, 11, 12, 13, 14, 15],
     [14, 10, 4, 8, 9, 15, 13, 6, 1, 12, 0, 2, 11, 7, 5, 3],
     [11, 8, 12, 0, 5, 2, 15, 13, 10, 14, 3, 6, 7, 1, 9, 4],
     [7, 9, 3, 1, 13, 12, 11, 14, 2, 6, 5, 10, 4, 0, 15, 8],
     [9, 0, 5, 7, 2, 4, 10, 15, 14, 1, 11, 12, 6, 8, 3, 13],
     [2, 12, 6, 10, 0, 11, 8, 3, 4, 13, 7, 5, 15, 14, 1, 9],
     [12, 5, 1, 15, 14, 13, 4, 10, 0, 7, 6, 3, 9, 2, 8, 11],
     [13, 11, 7, 14, 12, 1, 3, 9, 5, 0, 15, 4, 8, 6, 2, 10],
     [6, 15, 14, 9, 11, 3, 0, 8, 12, 2, 13, 7, 1, 4, 10, 5],
     [10, 2, 8, 4, 7, 6, 1, 5, 15, 11, 9, 14, 3, 12, 13, 0]]

  // The twelve rows the program keeps: its last two repeat the first two.
  const SCHEDULE: seq<seq<nat>> := SIGMA + [SIGMA[0], SIGMA[1]]

  predicate IsSchedule(s: seq<nat>) {
    |s| == 16 && forall i :: 0 <= i < 16 ==> s[i] < 16
  }

  lemma ScheduleRows(round: nat)
    requires round < 12
    ensures IsSchedule(SIGMA[round % 10]) && SCHEDULE[round] == SIGMA[round % 10]
  {
    hide IsSchedule;
    assert |SIGMA| == 10;
    SigmaRow(round % 10);
  }

  lemma SigmaRow(k: nat)
    requires k < 10
    ensures |SIGMA| == 10 && IsSchedule(SIGMA[k])
  {
  }

  function Plus(x: Word, y: Word): Word {
    x + y
  }

  function Xor(x: Word, y: Word): Word {
    x ^ y
  }

  // A rotation to the right by n digits.
  function Rotr(x: Word, n: Word): Word
    requires n <= 64
  {
    (x >> n) | (x << (64 - n))
  }

  // The four rotations of the mixing function.
  predicate IsRotation(n: Word) {
    n == 16 || n == 24 || n == 32 || n == 63
  }

  // Rotating on by the rest of the word undoes each of the rotations.
  lemma RotatedBy16(x: Word)
    ensures Rotr(Rotr(x, 16), 48) == x
  {
    HalvesRejoin16(x);
  }

  lemma HalvesRejoin16(x: Word)
    ensures (((x >> 16) | (x << 48)) >> 48) | (((x >> 16) | (x << 48)) << 16) == x
  {
  }

  lemma RotatedBy24(x: Word)
    ensures Rotr(Rotr(x, 24), 40) == x
  {
    HalvesRejoin24(x);
  }

  lemma HalvesRejoin24(x: Word)
    ensures (((x >> 24) | (x << 40)) >> 40) | (((x >> 24) | (x << 40)) << 24) == x
  {
  }

  lemma RotatedBy32(x: Word)
    ensures Rotr(Rotr(x, 32), 32) == x
  {
    HalvesRejoin32(x);
  }

  lemma HalvesRejoin32(x: Word)
    ensures (((x >> 32) | (x << 32)) >> 32) | (((x >> 32) | (x << 32)) << 32) == x
  {
  }

  lemma RotatedBy63(x: Word)
    ensures Rotr(Rotr(x, 63), 1) == x
  {
    HalvesRejoin63(x);
  }

  lemma HalvesRejoin63(x: Word)
    ensures (((x >> 63) | (x << 1)) >> 1) | (((x >> 63) | (x << 1)) << 63) == x
  {
  }

  lemma RotatedBack(x: Word, n: Word)
    requires IsRotation(n)
    ensures Rotr(Rotr(x, n), 64 - n) == x
  {
    hide Rotr;
    RotatedBy16(x);
    RotatedBy24(x);
    RotatedBy32(x);
    RotatedBy63(x);
  }

  lemma XorCommutes(x: Word, y: Word)
    ensures Xor(x, y) == Xor(y, x) && Xor(x, x) == 0
  {
    assert x ^ y == y ^ x && x ^ x == 0;
  }

  lemma XorAssociates(x: Word, y: Word, z: Word)
    ensures Xor(Xor(x, y), z) == Xor(x, Xor(y, z))
  {
    assert (x ^ y) ^ z == x ^ (y ^ z);
  }

  lemma XorZero(w: Word)
    ensures Xor(w, 0) == w
  {
  }

  function ToWord(n: u64): Word {
    n as Word
  }

  function Truncated(n: nat): Word {
    ToWord(n % TWO64)
  }

  // Section 3.1, on the four words it changes.
  datatype Quad = Quad(a: Word, b: Word, c: Word, d: Word)

  function G(q: Quad, x: Word, y: Word): Quad {
    HalfMix(HalfMix(q, x, 32, 24), y, 16, 63)
  }

  function HalfMix(q: Quad, x: Word, r: Word, s: Word): Quad
    requires IsRotation(r) && IsRotation(s)
  {
    var a := Plus(Plus(q.a, q.b), x);
    var d := Rotr(Xor(q.d, a), r);
    var c := Plus(q.c, d);
    Quad(a, Rotr(Xor(q.b, c), s), c, d)
  }

  function Minus(x: Word, y: Word): Word {
    x - y
  }

  function HalfUnmix(q: Quad, x: Word, r: Word, s: Word): Quad
    requires IsRotation(r) && IsRotation(s)
  {
    var b := Xor(Rotr(q.b, 64 - s), q.c);
    Quad(Minus(Minus(q.a, x), b), b, Minus(q.c, q.d), Xor(Rotr(q.d, 64 - r), q.a))
  }

  lemma XorTwice(x: Word, y: Word)
    ensures Xor(Xor(x, y), y) == x
  {
    assert (x ^ y) ^ y == x;
  }

  lemma PlusUndone(x: Word, y: Word)
    ensures Minus(Plus(x, y), y) == x
  {
    SumLessPart(x, y);
    assert Plus(x, y) == x + y;
    assert Minus(x + y, y) == (x + y) - y;
  }

  lemma SumLessPart(x: Word, y: Word)
    ensures (x + y) - y == x
  {
  }

  lemma HalfMixUndone(q: Quad, x: Word, r: Word, s: Word)
    requires IsRotation(r) && IsRotation(s)
    ensures HalfUnmix(HalfMix(q, x, r, s), x, r, s) == q
  {
    hide Xor, Rotr, Plus, Minus;
    var h := HalfMix(q, x, r, s);
    RotatedBack(Xor(q.b, h.c), s);
    RotatedBack(Xor(q.d, h.a), r);
    XorTwice(q.b, h.c);
    XorTwice(q.d, h.a);
    PlusUndone(Plus(q.a, q.b), x);
    PlusUndone(q.a, q.b);
    PlusUndone(q.c, h.d);
  }

  /** Mixing loses nothing: the four words are recovered from the mixed ones. */
  lemma MixingUndone(q: Quad, x: Word, y: Word)
    ensures HalfUnmix(HalfUnmix(G(q, x, y), y, 16, 63), x, 32, 24) == q
  {
    hide HalfMix, HalfUnmix;
    HalfMixUndone(q, x, 32, 24);
    HalfMixUndone(HalfMix(q, x, 32, 24), y, 16, 63);
  }

  function Mix(v: seq<Word>, a: nat, b: nat, c: nat, d: nat, x: Word, y: Word): (r: seq<Word>)
    requires |v| == 16 && a < 16 && b < 16 && c < 16 && d < 16
    ensures |r| == 16
  {
    MixHalf(MixHalf(v, a, b, c, d, x, 32, 24), a, b, c, d, y, 16, 63)
  }

  function MixHalf(v: seq<Word>, a: nat, b: nat, c: nat, d: nat, x: Word, n: Word, k: Word): (r: seq<Word>)
    requires |v| == 16 && a < 16 && b < 16 && c < 16 && d < 16 && IsRotation(n) && IsRotation(k)
    ensures |r| == 16
  {
    hide Plus, Xor, Rotr;
    var v := v[a := Plus(Plus(v[a], v[b]), x)];
    var v := v[d := Rotr(Xor(v[d], v[a]), n)];
    var v := v[c := Plus(v[c], v[d])];
    v[b := Rotr(Xor(v[b], v[c]), k)]
  }

  predicate Different(a: nat, b: nat, c: nat, d: nat) {
    a != b && a != c && a != d && b != c && b != d && c != d
  }

  lemma MixHalfIs(v: seq<Word>, a: nat, b: nat, c: nat, d: nat, x: Word, n: Word, k: Word)
    requires |v| == 16 && a < 16 && b < 16 && c < 16 && d < 16 && Different(a, b, c, d) && IsRotation(n) && IsRotation(k)
    ensures var q := HalfMix(Quad(v[a], v[b], v[c], v[d]), x, n, k);
            MixHalf(v, a, b, c, d, x, n, k) == v[a := q.a][b := q.b][c := q.c][d := q.d]
  {
    hide Plus, Xor, Rotr;
  }

  /** On four different words of the vector the steps in place are the mixing. */
  lemma MixIsG(v: seq<Word>, a: nat, b: nat, c: nat, d: nat, x: Word, y: Word)
    requires |v| == 16 && a < 16 && b < 16 && c < 16 && d < 16 && Different(a, b, c, d)
    ensures var q := G(Quad(v[a], v[b], v[c], v[d]), x, y);
            Mix(v, a, b, c, d, x, y) == v[a := q.a][b := q.b][c := q.c][d := q.d]
  {
    hide HalfMix, MixHalf;
    MixHalfIs(v, a, b, c, d, x, 32, 24);
    MixHalfIs(MixHalf(v, a, b, c, d, x, 32, 24), a, b, c, d, y, 16, 63);
  }

  function Round(v: seq<Word>, m: seq<Word>, s: seq<nat>): (r: seq<Word>)
    requires |v| == 16 && |m| == 16 && IsSchedule(s)
    ensures |r| == 16
  {
    Diagonals(Columns(v, m, s), m, s)
  }

  function Columns(v: seq<Word>, m: seq<Word>, s: seq<nat>): (r: seq<Word>)
    requires |v| == 16 && |m| == 16 && IsSchedule(s)
    ensures |r| == 16
  {
    hide Mix;
    var v := Mix(v, 0, 4, 8, 12, m[s[0]], m[s[1]]);
    var v := Mix(v, 1, 5, 9, 13, m[s[2]], m[s[3]]);
    var v := Mix(v, 2, 6, 10, 14, m[s[4]], m[s[5]]);
    Mix(v, 3, 7, 11, 15, m[s[6]], m[s[7]])
  }

  function Diagonals(v: seq<Word>, m: seq<Word>, s: seq<nat>): (r: seq<Word>)
    requires |v| == 16 && |m| == 16 && IsSchedule(s)
    ensures |r| == 16
  {
    hide Mix;
    var v := Mix(v, 0, 5, 10, 15, m[s[8]], m[s[9]]);
    var v := Mix(v, 1, 6, 11, 12, m[s[10]], m[s[11]]);
    var v := Mix(v, 2, 7, 8, 13, m[s[12]], m[s[13]]);
    Mix(v, 3, 4, 9, 14, m[s[14]], m[s[15]])
  }

  function Rounds(v: seq<Word>, m: seq<Word>, n: nat): (r: seq<Word>)
    requires |v| == 16 && |m| == 16 && n <= 12
    ensures |r| == 16
  {
    if n == 0 then
      v
    else
      ScheduleRows(n - 1);
      Round(Rounds(v, m, n - 1), m, SIGMA[(n - 1) % 10])
  }

  // Bytes as a number, the least significant byte first.
  function LittleEndian(b: seq<Byte>): (w: nat)
    ensures w < Power2(8 * |b|)
  {
    if b == [] then
      0
    else
      PowerAdds(8, 8 * |b| - 8);
      WordPowers();
      b[0] + 0x100 * LittleEndian(b[1..])
  }

  function LoadLe(b: seq<Byte>): Word
    requires |b| == 8
  {
    WordPowers();
    ToWord(LittleEndian(b))
  }

  function ByteAt(w: nat, i: nat): Byte {
    if i == 0 then w % 0x100 else ByteAt(w / 0x100, i - 1)
  }

  function WordByte(w: Word, i: nat): Byte {
    ByteAt(w as nat, i)
  }

  /** Storing a loaded word gives its bytes back. */
  lemma {:induction false} StoredAsLoaded(b: seq<Byte>, i: nat)
    requires i < |b|
    ensures ByteAt(LittleEndian(b), i) == b[i]
  {
    if i > 0 {
      StoredAsLoaded(b[1..], i - 1);
    }
  }

  function WordsOf(block: seq<Byte>): (m: seq<Word>)
    requires |block| == BLOCK
    ensures |m| == 16 && forall i :: 0 <= i < 16 ==> m[i] == LoadLe(block[8 * i..8 * i + 8])
  {
    seq(16, i requires 0 <= i < 16 => LoadLe(block[8 * i..8 * i + 8]))
  }

  // The work vector of section 3.2, with t the offset counter and last the
  // final-block flag.
  function Setup(h: seq<Word>, iv: seq<Word>, t: nat, last: bool): (v: seq<Word>)
    requires |h| == |iv| == 8
    ensures |v| == 16
  {
    var v := h + iv;
    var v := v[12 := Xor(v[12], Truncated(t))];
    var v := v[13 := Xor(v[13], Truncated(t / TWO64))];
    if last then v[14 := Xor(v[14], ALL_ONES)] else v
  }

  function F(h: seq<Word>, block: seq<Byte>, t: nat, last: bool): (r: seq<Word>)
    requires |h| == 8 && |block| == BLOCK
    ensures |r| == 8
  {
    Folded(h, Rounds(Setup(h, IV, t, last), WordsOf(block), 12))
  }

  function Folded(h: seq<Word>, v: seq<Word>): (r: seq<Word>)
    requires |h| == 8 && |v| == 16
    ensures |r| == 8 && forall i :: 0 <= i < 8 ==> r[i] == Xor(h[i], Xor(v[i], v[i + 8]))
  {
    seq(8, i requires 0 <= i < 8 => Xor(h[i], Xor(v[i], v[i + 8])))
  }

  function Pad(s: seq<Byte>): (r: seq<Byte>)
    requires |s| <= BLOCK
    ensures |r| == BLOCK && r[..|s|] == s && forall i :: |s| <= i < BLOCK ==> r[i] == 0
  {
    s + seq(BLOCK - |s|, i => 0)
  }

  // The blocks a byte string fills, the last one padded.
  function PadBlocks(s: seq<Byte>): (d: seq<seq<Byte>>)
    ensures forall i :: 0 <= i < |d| ==> |d[i]| == BLOCK
    ensures d == [] <==> s == []
  {
    if s == [] then []
    else if |s| <= BLOCK then [Pad(s)]
    else [s[..BLOCK]] + PadBlocks(s[BLOCK..])
  }

  // Section 3.3: the key and data blocks; one zero block when there are none.
  function Blocks(key: seq<Byte>, message: seq<Byte>): (d: seq<seq<Byte>>)
    requires |key| <= MAX_KEY
    ensures |d| > 0 && forall i :: 0 <= i < |d| ==> |d[i]| == BLOCK
  {
    var d := (if key == [] then [] else [Pad(key)]) + PadBlocks(message);
    if d == [] then [Pad([])] else d
  }

  function InitialChain(kk: nat, nn: nat): (h: seq<Word>)
    requires kk <= MAX_KEY && nn <= MAX_DIGEST
    ensures |h| == 8
  {
    IV[0 := Xor(IV[0], Xor(Xor(0x01010000, ToWord(kk * 0x100)), ToWord(nn)))]
  }

  /** Section 2.5: the digest's length is the lowest byte of the parameter word and
      the key's the next, as some lengths show. */
  lemma ParametersStand()
    ensures InitialChain(0, 64)[0] == IV[0] ^ 0x01010040
    ensures InitialChain(64, 64)[0] == IV[0] ^ 0x01014040
    ensures InitialChain(32, 20)[0] == IV[0] ^ 0x01012014
  {
    hide ToWord;
    Lengths();
    assert 64 * 0x100 == 0x4000 && 32 * 0x100 == 0x2000;
  }

  lemma Lengths()
    ensures ToWord(0) == 0 && ToWord(20) == 20 && ToWord(64) == 64
    ensures ToWord(0x2000) == 0x2000 && ToWord(0x4000) == 0x4000
  {
  }

  // The loop of section 3.3 over the first n blocks.
  function Fold(h: seq<Word>, d: seq<seq<Byte>>, n: nat): (r: seq<Word>)
    requires |h| == 8 && n <= |d| && forall i :: 0 <= i < |d| ==> |d[i]| == BLOCK
    ensures |r| == 8
  {
    if n == 0 then h else F(Fold(h, d, n - 1), d[n - 1], n * BLOCK, false)
  }

  function FirstBytes(h: seq<Word>, nn: nat): (out: seq<Byte>)
    requires |h| == 8 && nn <= MAX_DIGEST
    ensures |out| == nn && forall i :: 0 <= i < nn ==> out[i] == WordByte(h[i / 8], i % 8)
  {
    seq(nn, i requires 0 <= i < nn => WordByte(h[i / 8], i % 8))
  }

  /** The digest of a message, as section 3.3 of RFC 7693 computes it. */
  function Digest(key: seq<Byte>, message: seq<Byte>, nn: nat): (out: seq<Byte>)
    requires |key| <= MAX_KEY && nn <= MAX_DIGEST
    ensures |out| == nn
  {
    var d := Blocks(key, message);
    var dd := |d|;
    var h := Fold(InitialChain(|key|, nn), d, dd - 1);
    var ll := if key == [] then |message| else |message| + BLOCK;
    FirstBytes(F(h, d[dd - 1], ll, true), nn)
  }

  // ---- The same digest over one byte string ----

  // The key block, if any, with the message behind it.
  function Fed(key: seq<Byte>, message: seq<Byte>): seq<Byte>
    requires |key| <= MAX_KEY
  {
    if key == [] then message else Pad(key) + message
  }

  // Blocks followed by more input: the last block is never among them.
  function FullBlocks(n: nat): (c: nat)
    ensures c * BLOCK <= n <= (c + 1) * BLOCK && (n > 0 ==> c * BLOCK < n)
  {
    if n == 0 then 0 else (n - 1) / BLOCK
  }

  function Chain(h: seq<Word>, s: seq<Byte>, n: nat): (r: seq<Word>)
    requires |h| == 8 && n * BLOCK <= |s|
    ensures |r| == 8
  {
    if n == 0 then h else F(Chain(h, s, n - 1), s[(n - 1) * BLOCK..n * BLOCK], n * BLOCK, false)
  }

  lemma {:induction false} ChainPrefix(h: seq<Word>, s: seq<Byte>, more: seq<Byte>, n: nat)
    requires |h| == 8 && n * BLOCK <= |s|
    ensures Chain(h, s + more, n) == Chain(h, s, n)
  {
    hide F;
    if n > 0 {
      ChainPrefix(h, s, more, n - 1);
      assert (s + more)[(n - 1) * BLOCK..n * BLOCK] == s[(n - 1) * BLOCK..n * BLOCK];
    }
  }

  lemma {:induction false} BlockAt(s: seq<Byte>, i: nat)
    requires s != []
    ensures |PadBlocks(s)| == FullBlocks(|s|) + 1
    ensures i < FullBlocks(|s|) ==> PadBlocks(s)[i] == s[i * BLOCK..(i + 1) * BLOCK]
    ensures i == FullBlocks(|s|) ==> PadBlocks(s)[i] == Pad(s[i * BLOCK..])
  {
    hide Pad;
    if |s| <= BLOCK {
      assert s[0..] == s;
    } else {
      var rest := s[BLOCK..];
      OneBlockFewer(|s|);
      BlockAt(rest, if i == 0 then 0 else i - 1);
      if 0 < i <= FullBlocks(|s|) {
        var at := (i - 1) * BLOCK;
        assert i * BLOCK == BLOCK + at && (i + 1) * BLOCK == BLOCK + (at + BLOCK);
        SliceBehind(s, BLOCK, at, |rest|);
        if i < FullBlocks(|s|) {
          SliceBehind(s, BLOCK, at, at + BLOCK);
        }
      }
    }
  }

  lemma SliceBehind(s: seq<Byte>, from: nat, a: nat, b: nat)
    requires a <= b && from + b <= |s|
    ensures s[from..][a..b] == s[from + a..from + b]
    ensures from + b == |s| ==> s[from..][a..] == s[from + a..]
  {
  }

  lemma OneBlockFewer(n: nat)
    requires n > BLOCK
    ensures FullBlocks(n) == FullBlocks(n - BLOCK) + 1
  {
  }

  lemma KeyBlockFirst(key: seq<Byte>, message: seq<Byte>)
    requires |key| <= MAX_KEY
    ensures Blocks(key, message) == if Fed(key, message) == [] then [Pad([])] else PadBlocks(Fed(key, message))
  {
    if key != [] {
      var s := Pad(key) + message;
      if message == [] {
        assert s == Pad(key) && Pad(s) == s;
      } else {
        assert s[..BLOCK] == Pad(key) && s[BLOCK..] == message;
      }
    }
  }

  lemma {:induction false} FoldIsChain(h: seq<Word>, s: seq<Byte>, n: nat)
    requires |h| == 8 && s != [] && n <= FullBlocks(|s|)
    ensures n <= |PadBlocks(s)| && Fold(h, PadBlocks(s), n) == Chain(h, s, n)
  {
    hide F, PadBlocks;
    BlockAt(s, n);
    if n > 0 {
      BlockAt(s, n - 1);
      FoldIsChain(h, s, n - 1);
    }
  }

  /** The digest of section 3.3 from the chained full blocks and what is left. */
  lemma DigestOfFed(key: seq<Byte>, message: seq<Byte>, nn: nat)
    requires |key| <= MAX_KEY && nn <= MAX_DIGEST
    ensures var s, c := Fed(key, message), FullBlocks(|Fed(key, message)|);
            Digest(key, message, nn) ==
              FirstBytes(F(Chain(InitialChain(|key|, nn), s, c), Pad(s[c * BLOCK..]), |s|, true), nn)
  {
    hide F, PadBlocks, Blocks, InitialChain, Pad;
    var s := Fed(key, message);
    var c := FullBlocks(|s|);
    KeyBlockFirst(key, message);
    if s == [] {
      assert s[c * BLOCK..] == [];
    } else {
      BlockAt(s, c);
      FoldIsChain(InitialChain(|key|, nn), s, c);
    }
  }
}
