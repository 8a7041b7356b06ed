/** The streaming BLAKE2b state: blocks are compressed only once more input is
    known to follow, and the digest is that of RFC 7693 on everything absorbed. */
module Blake2bStream {
  import opened Words
  import opened Blake2b

  const TWO128 := TWO64 * TWO64

  class State {
    var chain: seq<Word>
    var count0: u64
    var count1: u64
    var last0: Word
    var last1: Word
    const buf: array<Byte>
    var bufSize: nat
    var outSize: nat
    ghost var key: seq<Byte>
    ghost var text: seq<Byte>

    constructor ()
      ensures fresh(buf) && buf.Length == BLOCK && |chain| == 8
    {
      chain := seq(8, i => 0);
      count0, count1, last0, last1 := 0, 0, 0, 0;
      buf := new Byte[BLOCK](i => 0);
      bufSize, outSize := 0, 0;
    }

    ghost function Input(): seq<Byte>
      reads this
      requires |key| <= MAX_KEY
    {
      Fed(key, text)
    }

    // The buffer holds what follows the compressed blocks, a last full block
    // included; the counter is the number of bytes compressed, modulo 2^128.
    ghost predicate Valid()
      reads this, buf
    {
      && buf.Length == BLOCK && |chain| == 8 && bufSize <= BLOCK && Within()
      && (bufSize == 0 ==> Input() == [])
      && buf[..bufSize] == Tail(Input(), bufSize)
      && Compressed(chain, count0, count1, key, outSize, Input(), bufSize)
    }

    ghost predicate Within()
      reads this
    {
      1 <= outSize <= MAX_DIGEST && |key| <= MAX_KEY && last0 == 0 && last1 == 0
    }

    /** Readies the state for a digest of outSize bytes under the key. */
    method Start(outSize: nat, key: array?<Byte>, keySize: nat) returns (ok: bool)
      requires buf.Length == BLOCK && |chain| == 8
      requires key != null ==> keySize <= key.Length && key != buf
      modifies this, buf
      ensures ok <==> 1 <= outSize <= MAX_DIGEST && keySize <= MAX_KEY && (keySize > 0 ==> key != null)
      ensures ok ==> Valid() && this.outSize == outSize && text == []
      ensures ok ==> this.key == if keySize > 0 then key[..keySize] else []
      ensures !ok ==> unchanged(this) && unchanged(buf)
    {
      hide Compressed, InitialChain, Fed, Pad, Tail;
      if outSize == 0 || outSize > MAX_DIGEST || keySize > MAX_KEY || (keySize > 0 && key == null) {
        return false;
      }
      count0, count1, last0, last1, bufSize := 0, 0, 0, 0, 0;
      this.outSize := outSize;
      chain := InitialChain(keySize, outSize);
      this.key, text := [], [];
      if keySize > 0 {
        this.key := key[..keySize];
        KeyBlock(key, keySize);
        bufSize := BLOCK;
      }
      NothingChained(this.key, outSize);
      assert buf[..bufSize] == Input();
      ok := true;
    }

    method KeyBlock(key: array<Byte>, keySize: nat)
      requires buf.Length == BLOCK && keySize <= key.Length && keySize <= MAX_KEY && key != buf
      modifies buf
      ensures buf[..] == Pad(key[..keySize])
    {
      forall i | 0 <= i < BLOCK {
        buf[i] := if i < keySize then key[i] else 0;
      }
    }

    /** The two-word counter, carry included. */
    method AddCount(amount: u64)
      modifies this`count0, this`count1
      ensures forall t: nat :: CountIs(old(count0), old(count1), t) ==> CountIs(count0, count1, t + amount)
    {
      ghost var low, high := count0, count1;
      var before := count0;
      count0 := (count0 + amount) % TWO64;
      if count0 < before {
        count1 := (count1 + 1) % TWO64;
      }
      forall t: nat | CountIs(low, high, t) ensures CountIs(count0, count1, t + amount) {
        CarryIsExact(low, high, amount, t);
      }
    }

    /** Replaces the chain by one application of F to the buffer. */
    method Compress(ghost t: nat, ghost last: bool)
      requires buf.Length == BLOCK && |chain| == 8 && CountIs(count0, count1, t)
      requires last0 == (if last then ALL_ONES else 0) && last1 == 0
      modifies this`chain
      ensures |chain| == 8 && chain == F(old(chain), buf[..], t, last)
    {
      hide Xor, Truncated, CountIs, Rounds, Round, Setup, LoadLe, WordsOf, Folded;
      var work := WorkVector(t, last);
      var msg := MessageWords();
      ghost var v := work[..];
      NoRounds(v, WordsOf(buf[..]));
      for round := 0 to 12
        invariant |chain| == 8 && chain == old(chain) && buf[..] == old(buf[..]) && msg[..] == WordsOf(buf[..])
        invariant work[..] == Rounds(v, WordsOf(buf[..]), round)
      {
        ScheduleRows(round);
        NextRound(v, msg[..], round);
        MixRound(work, msg, SCHEDULE[round]);
      }
      chain := Folded(chain, work[..]);
    }

    method WorkVector(ghost t: nat, ghost last: bool) returns (work: array<Word>)
      requires |chain| == 8 && CountIs(count0, count1, t)
      requires last0 == (if last then ALL_ONES else 0) && last1 == 0
      ensures fresh(work) && work.Length == 16 && work[..] == Setup(chain, IV, t, last)
    {
      hide Xor, Truncated, CountIs, Setup;
      work := new Word[16];
      for i := 0 to 8
        invariant work[..i] == chain[..i]
      {
        work[i] := chain[i];
      }
      work[8], work[9], work[10], work[11] := IV[0], IV[1], IV[2], IV[3];
      work[12], work[13] := Xor(IV[4], Truncated(count0)), Xor(IV[5], Truncated(count1));
      work[14], work[15] := Xor(IV[6], last0), Xor(IV[7], last1);
      SetupWords(chain, IV, work[..], t, last, count0, count1);
    }

    method MessageWords() returns (msg: array<Word>)
      requires buf.Length == BLOCK
      ensures fresh(msg) && msg[..] == WordsOf(buf[..])
    {
      hide LoadLe;
      msg := new Word[16];
      for i := 0 to 16
        invariant forall k :: 0 <= k < i ==> msg[k] == LoadLe(buf[..][8 * k..8 * k + 8])
      {
        msg[i] := LoadLe(buf[..][8 * i..8 * i + 8]);
      }
    }

    method Absorb(data: array?<Byte>, size: nat) returns (ok: bool)
      requires Valid() && (data != null ==> size <= data.Length && data != buf)
      modifies this, buf
      ensures ok <==> size == 0 || data != null
      ensures ok ==> Valid() && outSize == old(outSize) && key == old(key)
      ensures ok ==> text == old(text) + if size == 0 then [] else data[..size]
      ensures !ok ==> unchanged(this) && unchanged(buf)
    {
      hide Compressed, Fed, InitialChain, Tail;
      if size > 0 && data == null {
        return false;
      }
      ghost var input := if data == null then [] else data[..size];
      var done := 0;
      while done < size
        invariant done <= size == |input| && Valid() && outSize == old(outSize) && key == old(key)
        invariant data != null ==> data[..size] == input
        invariant text == old(text) + input[..done]
      {
        var writable := Take(data, done, size - done);
        assert input[..done + writable] == input[..done] + data[done..done + writable];
        done := done + writable;
      }
      assert input[..done] == input;
      ok := true;
    }

    // As much of the input as the buffer has room for, a full one flushed first.
    method Take(data: array<Byte>, from: nat, size: nat) returns (writable: nat)
      requires Valid() && data != buf && 0 < size && from + size <= data.Length
      modifies this, buf
      ensures Valid() && 0 < writable <= size && outSize == old(outSize) && key == old(key)
      ensures text == old(text) + data[from..from + writable]
    {
      hide Compressed, Fed, InitialChain, Tail;
      if bufSize == BLOCK {
        Flush();
      }
      writable := Min(BLOCK - bufSize, size);
      Copy(data, from, writable);
    }

    // A full buffer that more input follows.
    method Flush()
      requires Valid() && bufSize == BLOCK
      modifies this
      ensures buf.Length == BLOCK && bufSize == 0 && outSize == old(outSize) && key == old(key) && text == old(text)
      ensures |chain| == 8 && Within() && Compressed(chain, count0, count1, key, outSize, Input(), 0)
      ensures buf[..bufSize] == Tail(Input(), bufSize)
    {
      hide F, Fed, Pad, InitialChain, Done, CountIs, Aligned, Chain, Compressed, Tail;
      ghost var s, block := Input(), buf[..];
      assert block == buf[..bufSize];
      CompressedNext(chain, count0, count1, key, outSize, s, block);
      AddCount(BLOCK);
      Compress(|s|, false);
      bufSize := 0;
      CompressedIs(chain, count0, count1, key, outSize, s, 0);
      NoTail(s);
      assert buf[..bufSize] == [];
    }

    method Copy(data: array<Byte>, from: nat, n: nat)
      requires buf.Length == BLOCK && |chain| == 8 && bufSize + n <= BLOCK && data != buf && Within()
      requires buf[..bufSize] == Tail(Input(), bufSize)
      requires Compressed(chain, count0, count1, key, outSize, Input(), bufSize)
      requires 0 < n && from + n <= data.Length
      modifies this`bufSize, this`text, buf
      ensures Valid() && bufSize == old(bufSize) + n && text == old(text) + data[from..from + n]
    {
      hide Fed, Compressed, Tail, InitialChain;
      ghost var before, input := buf[..bufSize], Input();
      forall k | 0 <= k < n {
        buf[bufSize + k] := data[from + k];
      }
      ghost var more := data[from..from + n];
      FedGrows(key, text, more);
      StillCompressed(chain, count0, count1, key, outSize, input, bufSize, more);
      bufSize := bufSize + n;
      text := text + more;
      assert buf[..bufSize] == before + more;
    }

    /** Compresses the last block and writes the digest; the state is spent. */
    method Finish(output: array?<Byte>) returns (ok: bool)
      requires Valid() && (output != null ==> outSize <= output.Length && output != buf)
      modifies this, buf, output
      ensures ok <==> output != null
      ensures ok ==> output[..old(outSize)] == Digest(old(key), old(text), old(outSize))
      ensures ok ==> forall i :: old(outSize) <= i < output.Length ==> output[i] == old(output[i])
      ensures !ok ==> unchanged(this) && unchanged(buf)
    {
      hide F, InitialChain, Fed, Chain, CountIs, FirstBytes, Digest, Done, Compressed, Tail, Aligned;
      if output == null {
        return false;
      }
      ghost var s, n := Input(), |Input()|;
      CompressedFacts(chain, count0, count1, key, outSize, s, bufSize);
      ghost var tail := buf[..bufSize];
      DigestOfFed(key, text, outSize);
      LastBlock(n, bufSize);
      AddCount(bufSize);
      last0, last1 := ALL_ONES, 0;
      forall k | bufSize <= k < BLOCK {
        buf[k] := 0;
      }
      assert buf[..] == Pad(tail);
      Compress(n, true);
      WriteDigest(output);
      ok := true;
    }

    // Whole words first, then the bytes of one more.
    method WriteDigest(output: array<Byte>)
      requires |chain| == 8 && outSize <= MAX_DIGEST && outSize <= output.Length
      modifies output
      ensures output[..outSize] == FirstBytes(chain, outSize)
      ensures forall i :: outSize <= i < output.Length ==> output[i] == old(output[i])
    {
      hide WordByte;
      var fullWords, tailBytes := outSize / 8, outSize % 8;
      for i := 0 to fullWords
        invariant forall k :: 0 <= k < 8 * i ==> output[k] == WordByte(chain[k / 8], k % 8)
        invariant forall k :: 8 * i <= k < output.Length ==> output[k] == old(output[k])
      {
        forall k: nat | k < 8 {
          output[8 * i + k] := WordByte(chain[i], k);
        }
        forall k | 8 * i <= k < 8 * (i + 1) ensures output[k] == WordByte(chain[k / 8], k % 8) {
          assert output[8 * i + (k - 8 * i)] == WordByte(chain[i], k - 8 * i);
        }
      }
      if tailBytes > 0 {
        forall k: nat | k < tailBytes {
          output[8 * fullWords + k] := WordByte(chain[fullWords], k);
        }
        forall k | 8 * fullWords <= k < outSize ensures output[k] == WordByte(chain[k / 8], k % 8) {
          assert output[8 * fullWords + (k - 8 * fullWords)] == WordByte(chain[fullWords], k - 8 * fullWords);
        }
      }
    }

    method Wipe()
      requires buf.Length == BLOCK
      modifies this, buf
      ensures |chain| == 8 && (forall i :: 0 <= i < 8 ==> chain[i] == 0)
      ensures forall i :: 0 <= i < BLOCK ==> buf[i] == 0
      ensures count0 == count1 == 0 && last0 == last1 == 0 && bufSize == outSize == 0
    {
      chain := seq(8, i => 0);
      count0, count1, last0, last1 := 0, 0, 0, 0;
      forall i | 0 <= i < BLOCK {
        buf[i] := 0;
      }
      bufSize, outSize := 0, 0;
    }
  }

  /** The one-shot digest: it fails on exactly the invalid arguments. */
  method OneShot(data: array?<Byte>, size: nat, output: array?<Byte>, outSize: nat, key: array?<Byte>, keySize: nat)
    returns (ok: bool)
    requires (data != null ==> size <= data.Length) && (key != null ==> keySize <= key.Length)
    requires output != null ==> outSize <= output.Length
    modifies output
    ensures ok <==> 1 <= outSize <= MAX_DIGEST && keySize <= MAX_KEY && output != null &&
                    (keySize > 0 ==> key != null) && (size > 0 ==> data != null)
    ensures ok ==> output[..outSize] == Digest(old(if keySize > 0 then key[..keySize] else []),
                                               old(if size > 0 then data[..size] else []), outSize)
    ensures !ok && output != null ==> unchanged(output)
  {
    hide *;
    ghost var k := if keySize > 0 && key != null then key[..keySize] else [];
    ghost var m := if size > 0 && data != null then data[..size] else [];
    var state := new State();
    ok := state.Start(outSize, key, keySize);
    if !ok {
      return false;
    }
    ok := state.Absorb(data, size);
    if !ok {
      state.Wipe();
      return false;
    }
    assert state.key == k && state.text == m;
    ok := state.Finish(output);
    state.Wipe();
  }

  /** A digest fed piece by piece, spent by its first finalisation. */
  class Stream {
    const state: State
    var started: bool
    var finished: bool

    ghost predicate Valid()
      reads this, state, state.buf
    {
      state.buf.Length == BLOCK && (Live() ==> state.Valid())
    }

    predicate Live()
      reads this
    {
      started && !finished
    }

    constructor (outSize: nat, key: array?<Byte>, keySize: nat)
      requires key != null ==> keySize <= key.Length
      ensures Valid() && fresh(state) && fresh(state.buf)
      ensures Live() <==> 1 <= outSize <= MAX_DIGEST && keySize <= MAX_KEY && (keySize > 0 ==> key != null)
      ensures Live() ==> state.outSize == outSize && state.text == []
      ensures Live() ==> state.key == if keySize > 0 then key[..keySize] else []
    {
      hide Compressed, Fed, InitialChain, Tail, Digest;
      state := new State();
      finished := false;
      new;
      started := state.Start(outSize, key, keySize);
    }

    method Update(data: array?<Byte>, size: nat) returns (ok: bool)
      requires Valid() && (data != null ==> size <= data.Length && data != state.buf)
      modifies state, state.buf
      ensures Valid() && Live() == old(Live())
      ensures ok <==> Live() && (size == 0 || data != null)
      ensures Live() ==> state.outSize == old(state.outSize) && state.key == old(state.key)
      ensures Live() ==> state.text == old(state.text) + if ok && size > 0 then data[..size] else []
    {
      hide Compressed, Fed, InitialChain, Tail;
      if !Live() {
        return false;
      }
      ok := state.Absorb(data, size);
    }

    method Finalize(output: array?<Byte>, outSize: nat) returns (ok: bool)
      requires Valid() && (output != null ==> outSize <= output.Length && output != state.buf)
      modifies this`finished, state, state.buf, output
      ensures Valid()
      ensures ok <==> old(Live()) && outSize == old(state.outSize) && output != null
      ensures ok ==> output[..outSize] == Digest(old(state.key), old(state.text), outSize)
      ensures !Live() <==> !old(Live()) || outSize == old(state.outSize)
    {
      hide Digest, Compressed, Fed, InitialChain, Tail;
      if !Live() || outSize != state.outSize {
        return false;
      }
      finished := true;
      ok := state.Finish(output);
      state.Wipe();
    }
  }

  // The two words hold t modulo 2^128.
  predicate CountIs(low: u64, high: u64, t: nat) {
    low + TWO64 * high == t % TWO128
  }

  // The blocks compressed out of n bytes when held of them are still buffered.
  function Done(n: nat, held: nat): (c: nat)
    requires held <= n
    ensures c * BLOCK <= n - held
  {
    (n - held) / BLOCK
  }

  predicate Aligned(n: nat) {
    n % BLOCK == 0
  }

  lemma CarryIsExact(low: u64, high: u64, amount: u64, t: nat)
    requires CountIs(low, high, t)
    ensures var sum := (low + amount) % TWO64;
            CountIs(sum, if sum < low then (high + 1) % TWO64 else high, t + amount)
  {
    var w, value := t / TWO128, t + amount;
    assert value == w * TWO128 + (low + amount + TWO64 * high);
    if low + amount < TWO64 {
      RemainderIs(value, w, low + amount + TWO64 * high);
    } else {
      WrapsOnce(low + amount);
      CarriesOut(w, low + amount - TWO64, high, value);
    }
  }

  lemma WrapsOnce(n: nat)
    requires TWO64 <= n < 2 * TWO64
    ensures n % TWO64 == n - TWO64
  {
  }

  // The low word overflowed: the high word goes up by one, or back to zero.
  lemma CarriesOut(w: nat, rest: u64, high: u64, value: nat)
    requires value == w * TWO128 + (rest + TWO64 + TWO64 * high)
    ensures CountIs(rest, (high + 1) % TWO64, value)
  {
    if high + 1 < TWO64 {
      RemainderIs(value, w, rest + TWO64 * (high + 1));
    } else {
      RemainderIs(value, w + 1, rest);
    }
  }

  lemma RemainderIs(value: nat, w: nat, r: nat)
    requires value == w * TWO128 + r && r < TWO128
    ensures value % TWO128 == r
  {
  }

  method MixG(work: array<Word>, a: nat, b: nat, c: nat, d: nat, x: Word, y: Word)
    requires work.Length == 16 && a < 16 && b < 16 && c < 16 && d < 16
    modifies work
    ensures work[..] == Mix(old(work[..]), a, b, c, d, x, y)
  {
    hide Plus, Xor, Rotr;
    work[a] := Plus(Plus(work[a], work[b]), x);
    work[d] := Rotr(Xor(work[d], work[a]), 32);
    work[c] := Plus(work[c], work[d]);
    work[b] := Rotr(Xor(work[b], work[c]), 24);
    work[a] := Plus(Plus(work[a], work[b]), y);
    work[d] := Rotr(Xor(work[d], work[a]), 16);
    work[c] := Plus(work[c], work[d]);
    work[b] := Rotr(Xor(work[b], work[c]), 63);
  }

  method MixRound(work: array<Word>, msg: array<Word>, s: seq<nat>)
    requires work.Length == msg.Length == 16 && work != msg && IsSchedule(s)
    modifies work
    ensures work[..] == Round(old(work[..]), msg[..], s)
  {
    hide Mix;
    MixG(work, 0, 4, 8, 12, msg[s[0]], msg[s[1]]);
    MixG(work, 1, 5, 9, 13, msg[s[2]], msg[s[3]]);
    MixG(work, 2, 6, 10, 14, msg[s[4]], msg[s[5]]);
    MixG(work, 3, 7, 11, 15, msg[s[6]], msg[s[7]]);
    assert work[..] == Columns(old(work[..]), msg[..], s);
    MixG(work, 0, 5, 10, 15, msg[s[8]], msg[s[9]]);
    MixG(work, 1, 6, 11, 12, msg[s[10]], msg[s[11]]);
    MixG(work, 2, 7, 8, 13, msg[s[12]], msg[s[13]]);
    MixG(work, 3, 4, 9, 14, msg[s[14]], msg[s[15]]);
  }

  lemma NextRound(v: seq<Word>, m: seq<Word>, n: nat)
    requires |v| == 16 && |m| == 16 && n < 12
    ensures Rounds(v, m, 0) == v
    ensures IsSchedule(SCHEDULE[n]) && Rounds(v, m, n + 1) == Round(Rounds(v, m, n), m, SCHEDULE[n])
  {
    ScheduleRows(n);
  }

  // Zero flags leave the last two words alone.
  lemma SetupWords(h: seq<Word>, iv: seq<Word>, v: seq<Word>, t: nat, last: bool, low: u64, high: u64)
    requires |h| == |iv| == 8 && |v| == 16 && CountIs(low, high, t)
    requires v[..8] == h && v[8..12] == iv[..4]
    requires v[12] == Xor(iv[4], Truncated(low)) && v[13] == Xor(iv[5], Truncated(high))
    requires v[14] == Xor(iv[6], if last then ALL_ONES else 0) && v[15] == Xor(iv[7], 0)
    ensures v == Setup(h, iv, t, last)
  {
    hide Xor, Truncated, CountIs;
    SplitCount(low, high, t);
    XorZero(iv[6]);
    XorZero(iv[7]);
    var w := Setup(h, iv, t, last);
    forall i | 0 <= i < 16 ensures v[i] == w[i] {
      if i < 8 {
        assert v[i] == v[..8][i];
      } else if i < 12 {
        assert v[i] == v[8..12][i - 8];
      }
    }
  }

  lemma NoRounds(v: seq<Word>, m: seq<Word>)
    requires |v| == 16 && |m| == 16
    ensures Rounds(v, m, 0) == v
  {
  }

  // The last n bytes.
  ghost function Tail(s: seq<Byte>, n: nat): seq<Byte> {
    if n <= |s| then s[|s| - n..] else s
  }

  // The chain and the counter once all but the last held bytes are compressed.
  ghost predicate Compressed(chain: seq<Word>, low: u64, high: u64, key: seq<Byte>, outSize: nat, s: seq<Byte>, held: nat) {
    && |key| <= MAX_KEY && outSize <= MAX_DIGEST && |chain| == 8
    && held <= |s| && Aligned(|s| - held) && CountIs(low, high, |s| - held)
    && chain == Chain(InitialChain(|key|, outSize), s, Done(|s|, held))
  }

  lemma CompressedFacts(chain: seq<Word>, low: u64, high: u64, key: seq<Byte>, outSize: nat, s: seq<Byte>, held: nat)
    requires Compressed(chain, low, high, key, outSize, s, held)
    ensures |key| <= MAX_KEY && outSize <= MAX_DIGEST
    ensures held <= |s| && Aligned(|s| - held) && CountIs(low, high, |s| - held) && Tail(s, held) == s[|s| - held..]
    ensures chain == Chain(InitialChain(|key|, outSize), s, Done(|s|, held))
  {
    hide Chain, InitialChain, CountIs, Aligned, Done;
  }

  lemma CompressedIs(chain: seq<Word>, low: u64, high: u64, key: seq<Byte>, outSize: nat, s: seq<Byte>, held: nat)
    requires |key| <= MAX_KEY && outSize <= MAX_DIGEST
    requires held <= |s| && Aligned(|s| - held) && CountIs(low, high, |s| - held)
    requires chain == Chain(InitialChain(|key|, outSize), s, Done(|s|, held))
    ensures Compressed(chain, low, high, key, outSize, s, held)
  {
    hide Chain, InitialChain, CountIs, Aligned, Done;
  }

  lemma NoTail(s: seq<Byte>)
    ensures Tail(s, 0) == []
  {
  }

  // A full block held back, compressed in its turn.
  lemma CompressedNext(chain: seq<Word>, low: u64, high: u64, key: seq<Byte>, outSize: nat, s: seq<Byte>, block: seq<Byte>)
    requires Compressed(chain, low, high, key, outSize, s, BLOCK) && block == Tail(s, BLOCK)
    ensures |block| == BLOCK <= |s| && |chain| == 8 && |key| <= MAX_KEY && outSize <= MAX_DIGEST
    ensures Aligned(|s|) && CountIs(low, high, |s| - BLOCK)
    ensures F(chain, block, |s|, false) == Chain(InitialChain(|key|, outSize), s, Done(|s|, 0))
  {
    hide F, Chain, InitialChain, CountIs, Aligned, Done;
    BlocksBack(|s|);
    ChainStep(InitialChain(|key|, outSize), s, block, Done(|s|, 0));
  }

  // More input behind the held bytes changes nothing that was compressed.
  lemma StillCompressed(chain: seq<Word>, low: u64, high: u64, key: seq<Byte>, outSize: nat, s: seq<Byte>, held: nat, more: seq<Byte>)
    requires Compressed(chain, low, high, key, outSize, s, held)
    ensures Compressed(chain, low, high, key, outSize, s + more, held + |more|)
    ensures Tail(s + more, held + |more|) == Tail(s, held) + more
  {
    hide Chain, InitialChain, CountIs;
    ChainPrefix(InitialChain(|key|, outSize), s, more, Done(|s|, held));
    TailGrows(s, more, |s| - held);
  }

  // Before any input: a key block still held back, or nothing at all.
  lemma NothingChained(key: seq<Byte>, outSize: nat)
    requires |key| <= MAX_KEY && outSize <= MAX_DIGEST
    ensures var s := Fed(key, []);
            && s == (if key == [] then [] else Pad(key)) && Tail(s, |s|) == s
            && Compressed(InitialChain(|key|, outSize), 0, 0, key, outSize, s, |s|)
  {
    hide InitialChain;
  }

  lemma SplitCount(low: u64, high: u64, t: nat)
    requires CountIs(low, high, t)
    ensures Truncated(t) == Truncated(low) && Truncated(t / TWO64) == Truncated(high)
  {
    hide CountIs;
    TwoWords(low, high, t);
  }

  lemma TwoWords(low: u64, high: u64, t: nat)
    requires CountIs(low, high, t)
    ensures t % TWO64 == low % TWO64 && t / TWO64 % TWO64 == high % TWO64
  {
    var whole := t / TWO128;
    assert t == low + TWO64 * (high + TWO64 * whole);
    assert t / TWO64 == high + TWO64 * whole;
  }

  lemma ChainStep(h: seq<Word>, s: seq<Byte>, block: seq<Byte>, n: nat)
    requires |h| == 8 && 0 < n && n * BLOCK == |s| && block == s[(n - 1) * BLOCK..]
    ensures Chain(h, s, n) == F(Chain(h, s, n - 1), block, |s|, false)
  {
    hide F, Chain;
    ChainUnfolds(h, s, n);
    assert s[(n - 1) * BLOCK..n * BLOCK] == block;
  }

  lemma ChainUnfolds(h: seq<Word>, s: seq<Byte>, n: nat)
    requires |h| == 8 && 0 < n && n * BLOCK <= |s|
    ensures Chain(h, s, n) == F(Chain(h, s, n - 1), s[(n - 1) * BLOCK..n * BLOCK], n * BLOCK, false)
  {
    hide F;
  }

  lemma BlocksBack(n: nat)
    requires BLOCK <= n && Aligned(n - BLOCK)
    ensures Aligned(n) && Done(n, 0) * BLOCK == n && Done(n, BLOCK) == Done(n, 0) - 1
  {
  }

  lemma FedGrows(key: seq<Byte>, text: seq<Byte>, more: seq<Byte>)
    requires |key| <= MAX_KEY
    ensures Fed(key, text + more) == Fed(key, text) + more
  {
    if key != [] {
      assert Pad(key) + (text + more) == Pad(key) + text + more;
    }
  }

  lemma TailGrows(s: seq<Byte>, more: seq<Byte>, from: nat)
    requires from <= |s|
    ensures (s + more)[from..] == s[from..] + more
  {
  }

  lemma LastBlock(n: nat, held: nat)
    requires held <= n && held <= BLOCK && Aligned(n - held) && (held == 0 ==> n == 0)
    ensures FullBlocks(n) * BLOCK == n - held && FullBlocks(n) == Done(n, held)
  {
  }
}
