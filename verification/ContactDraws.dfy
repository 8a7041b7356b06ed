/** What the contact sampler's draws decide, as functions of the word stream. */
module ContactDraws {
  import opened Words
  import Arithmetic
  import opened Bounded
  import RandomKernel

  const LOCAL_TRIES := 8
  const GLOBAL_TRIES := 8
  const CROSS_TRIES := 24

  /** The columns of an alias table. */
  datatype Columns = Columns(prob: seq<real>, alias: seq<nat>)

  ghost predicate Fits(c: Columns, size: nat) {
    && |c.prob| == |c.alias| == size && size < TWO32
    && forall j :: 0 <= j < size ==> c.alias[j] < size
  }

  // One pick: the column drawn, or its alias.
  ghost function PickOne(words: Words64, c: Columns, size: nat, at: nat): (r: (nat, nat))
    requires Fair(words) && Fits(c, size) && size > 0
    ensures r.0 < size
  {
    var (column, next) := Draw(words, size, at);
    (if RandomKernel.Fraction(words.At(next)) < c.prob[column] then column else c.alias[column], next + 1)
  }

  // The first of so many picks, counted from a base, outside the interval avoided.
  ghost function FirstOutside(words: Words64, c: Columns, size: nat, base: nat, lo: nat, hi: nat, tries: nat, at: nat): (r: (Option<nat>, nat))
    requires Fair(words) && Fits(c, size) && size > 0
    ensures r.0.Some? ==> base <= r.0.value < base + size && !(lo <= r.0.value < hi)
  {
    if tries == 0 then
      (None, at)
    else
      var (pick, next) := PickOne(words, c, size, at);
      if lo <= base + pick < hi then FirstOutside(words, c, size, base, lo, hi, tries - 1, next)
      else (Some(base + pick), next)
  }

  /** What a draw depends on besides the words: the source's block, the two coins
      and the two tables. */
  datatype Setting = Setting(n: nat, lo: nat, hi: nat, localProb: real, crossProb: real, global: Columns, local: Columns)

  ghost predicate ValidSetting(s: Setting, src: nat) {
    && 1 < s.n < TWO32 && s.lo <= src < s.hi <= s.n
    && Fits(s.global, s.n) && Fits(s.local, s.hi - s.lo)
  }

  function FallbackOther(src: nat, n: nat): (r: nat)
    requires src < n < TWO32
    ensures r < n && (n > 1 ==> r != src)
    ensures r == if src < n - 1 then src + 1 else 0
  {
    if n <= 1 then
      src
    else
      NextWraps(src, n);
      (src + 1) % n
  }

  lemma NextWraps(src: nat, n: nat)
    requires src < n
    ensures (src + 1) % n == if src < n - 1 then src + 1 else 0
  {
    if src < n - 1 {
      Arithmetic.RemainderUnique(src + 1, n, 0, src + 1);
    } else {
      Arithmetic.RemainderUnique(src + 1, n, 1, 0);
    }
  }

  ghost function Local(words: Words64, s: Setting, src: nat, at: nat): (r: (nat, nat))
    requires Fair(words) && ValidSetting(s, src)
    ensures r.0 < s.n && r.0 != src && (s.hi - s.lo > 1 ==> s.lo <= r.0 < s.hi)
  {
    if s.hi - s.lo <= 1 then
      (FallbackOther(src, s.n), at)
    else
      var (pick, next) := FirstOutside(words, s.local, s.hi - s.lo, s.lo, src, src + 1, LOCAL_TRIES, at);
      (if pick.Some? then pick.value else if src != s.lo then s.lo else src + 1, next)
  }

  ghost function Global(words: Words64, s: Setting, src: nat, at: nat): (r: (nat, nat))
    requires Fair(words) && ValidSetting(s, src)
    ensures r.0 < s.n && r.0 != src
  {
    var (pick, next) := FirstOutside(words, s.global, s.n, 0, src, src + 1, GLOBAL_TRIES, at);
    (if pick.Some? then pick.value else FallbackOther(src, s.n), next)
  }

  // Someone of another block, when there is one and it is found in time.
  ghost function Cross(words: Words64, s: Setting, src: nat, at: nat): (r: (nat, nat))
    requires Fair(words) && ValidSetting(s, src)
    ensures r.0 < s.n && r.0 != src
  {
    if s.hi - s.lo == s.n then
      Global(words, s, src, at)
    else
      var (pick, next) := FirstOutside(words, s.global, s.n, 0, s.lo, s.hi, CROSS_TRIES, at);
      if pick.Some? then (pick.value, next) else Global(words, s, src, next)
  }

  // The two coins choose the kind of contact; a kind that is impossible has none.
  ghost function Candidate(words: Words64, s: Setting, src: nat, at: nat): (r: (nat, nat))
    requires Fair(words) && ValidSetting(s, src)
    ensures r.0 < s.n && r.0 != src
  {
    var (local, next) := if s.hi - s.lo > 1 then RandomKernel.Toss(words, s.localProb, at) else (false, at);
    if local then
      Local(words, s, src, next)
    else
      CrossOrGlobal(words, s, src, next)
  }

  ghost function CrossOrGlobal(words: Words64, s: Setting, src: nat, at: nat): (r: (nat, nat))
    requires Fair(words) && ValidSetting(s, src)
    ensures r.0 < s.n && r.0 != src
  {
    var (cross, next) := if s.n - (s.hi - s.lo) > 0 then RandomKernel.Toss(words, s.crossProb, at) else (false, at);
    if cross then Cross(words, s, src, next) else Global(words, s, src, next)
  }

  /** A first coin that always falls keeps contacts inside a block that has someone
      else; one that never does hands over to the second, which when it always falls
      takes the first pick from another block. */
  lemma CandidateKinds(words: Words64, s: Setting, src: nat, at: nat)
    requires Fair(words) && ValidSetting(s, src)
    ensures s.localProb >= 1.0 && s.hi - s.lo > 1 ==> s.lo <= Candidate(words, s, src, at).0 < s.hi
    ensures s.localProb <= 0.0 && s.crossProb >= 1.0 && s.hi - s.lo < s.n ==>
      var (pick, next) := FirstOutside(words, s.global, s.n, 0, s.lo, s.hi, CROSS_TRIES, at);
      pick.Some? ==> Candidate(words, s, src, at) == (pick.value, next) && !(s.lo <= pick.value < s.hi)
    ensures s.localProb <= 0.0 && s.crossProb <= 0.0 ==>
      var (pick, next) := FirstOutside(words, s.global, s.n, 0, src, src + 1, GLOBAL_TRIES, at);
      pick.Some? ==> Candidate(words, s, src, at) == (pick.value, next)
  {
    hide FirstOutside;
  }

  // New candidates join in the order drawn until enough are found.
  ghost function Gathered(words: Words64, s: Setting, src: nat, wanted: nat, tries: nat, out: seq<nat>, at: nat): (r: (seq<nat>, nat))
    requires Fair(words) && ValidSetting(s, src)
    decreases tries
  {
    if tries == 0 || |out| >= wanted then
      (out, at)
    else
      var (x, next) := Candidate(words, s, src, at);
      Gathered(words, s, src, wanted, tries - 1, if x in out then out else out + [x], next)
  }

  // ---- The deterministic fill ----

  // The candidate of one step of a pass, in 32-bit arithmetic.
  function StrideCandidate(src: nat, step: nat, stride: nat, n: nat): nat
    requires n > 0
  {
    (src + step * stride) % TWO32 % n
  }

  function Considered(src: nat, candidate: nat, out: seq<nat>): seq<nat> {
    if candidate == src || candidate in out then out else out + [candidate]
  }

  // A pass from a step on adds the candidates that are new until enough are there.
  function Pass(src: nat, stride: nat, n: nat, desired: nat, step: nat, out: seq<nat>): seq<nat>
    requires n > 0
    decreases n - step
  {
    if step < n && |out| < desired then
      Pass(src, stride, n, desired, step + 1, Considered(src, StrideCandidate(src, step, stride, n), out))
    else out
  }

  function Stride(src: nat, n: nat): nat
    requires n > 0
  {
    var word := (src * 1103515245 + 12345) % TWO32;
    var odd := if word % 2 == 0 then word + 1 else word;
    if odd % n == 0 then 1 else odd % n
  }

  function Filled(src: nat, desired: nat, n: nat, out: seq<nat>): seq<nat>
    requires n > 0
  {
    if n <= 1 then out
    else Pass(src, 1, n, desired, 1, Pass(src, Stride(src, n), n, desired, 1, out))
  }
}
