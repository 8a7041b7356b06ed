/** The plan of unauthorised fraud: what one case attempt draws, the run of
    attempts that spends the budget, and the endpoints laid over it. */
module FraudPlanning {
  import opened Words
  import opened Keys
  import opened Bounded
  import RandomKernel

  const NEVER := 0x7FFF_FFFF_FFFF_FFFF
  const MAX_RESAMPLES := 4096
  const PICK_TRIES := 32
  const NO_KEY := Key(Customer, Internal, 0)

  datatype Rail = CardRail | GiftCardScam | ScamImpostor | Ato

  predicate Authorized(r: Rail) {
    r == GiftCardScam || r == ScamImpostor
  }

  /** What the planner reads besides the generator and the attackers. People are
      numbered from 1; the accounts are their primary keys. */
  datatype World = World(
    windowStart: int, days: int, accounts: seq<Option<Key>>, excluded: set<Key>,
    exposure: seq<real>, scamWeights: int -> seq<real>,
    member: (nat, int, bool) -> bool, severity: (nat, int) -> real,
    eligibleUntil: (nat, bool) -> int, homeArea: (nat, int) -> Option<nat>)

  predicate ValidWorld(w: World) {
    -TWO31 <= w.days < TWO31 && 0 < |w.accounts| < TWO32
  }

  // ---- Weighted picks ----

  function WeightAt(weights: seq<real>, i: nat): (r: real)
    ensures r >= 0.0
  {
    if i >= |weights| then 1.0 else if weights[i] > 0.0 then weights[i] else 0.0
  }

  function Prefixes(weights: seq<real>, n: nat): (p: seq<real>)
    ensures |p| == n
  {
    if n == 0 then []
    else
      var before := Prefixes(weights, n - 1);
      before + [(if n == 1 then 0.0 else before[n - 2]) + WeightAt(weights, n - 1)]
  }

  // None degrades to the uniform draw.
  function Cdf(weights: seq<real>, n: nat): Option<seq<real>>
    requires n > 0
  {
    if weights == [] || Prefixes(weights, n)[n - 1] <= 0.0 then None else Some(Prefixes(weights, n))
  }

  function LowerBound(prefix: seq<real>, u: real, i: nat): (k: nat)
    requires i <= |prefix|
    ensures i <= k <= |prefix|
    ensures forall j :: i <= j < k ==> prefix[j] < u
    ensures k < |prefix| ==> prefix[k] >= u
    decreases |prefix| - i
  {
    if i < |prefix| && prefix[i] < u then LowerBound(prefix, u, i + 1) else i
  }

  lemma {:induction false} PrefixStep(weights: seq<real>, n: nat, i: nat)
    requires i < n
    ensures Prefixes(weights, n)[i] == (if i == 0 then 0.0 else Prefixes(weights, n)[i - 1]) + WeightAt(weights, i)
  {
    if i < n - 1 {
      PrefixStep(weights, n - 1, i);
    }
  }

  /** A weighted pick lands on a person of positive weight exactly when the
      fraction drawn is not zero or the first weight is positive. */
  lemma PickIsWeighted(weights: seq<real>, n: nat, u: real)
    requires n > 0 && Cdf(weights, n).Some? && 0.0 <= u <= Prefixes(weights, n)[n - 1]
    ensures var k := LowerBound(Prefixes(weights, n), u, 0);
            k < n && (WeightAt(weights, k) > 0.0 <==> u > 0.0 || WeightAt(weights, 0) > 0.0)
  {
    var prefix := Prefixes(weights, n);
    var k := LowerBound(prefix, u, 0);
    assert k < n;
    PrefixStep(weights, n, k);
    PrefixStep(weights, n, 0);
  }

  // What a person weighs: nothing below zero, and one beyond the weights given.
  predicate Weighs(weights: seq<real>, k: nat, x: real) {
    && x >= 0.0
    && (k < |weights| && weights[k] >= 0.0 ==> x == weights[k])
    && (k < |weights| && weights[k] < 0.0 ==> x == 0.0)
    && (k >= |weights| ==> x == 1.0)
  }

  lemma {:induction false} PrefixesRise(weights: seq<real>, n: nat, i: nat, j: nat)
    requires i <= j < n
    ensures Prefixes(weights, n)[i] <= Prefixes(weights, n)[j]
  {
    if i < j {
      PrefixesRise(weights, n, i, j - 1);
      PrefixStep(weights, n, j);
    }
  }

  /** Each person is picked for a stretch of fractions as long as their weight. */
  lemma PickedInProportion(weights: seq<real>, n: nat, k: nat, u: real)
    requires k < n && u > 0.0
    ensures var prefix := Prefixes(weights, n);
            var before := if k == 0 then 0.0 else prefix[k - 1];
            && Weighs(weights, k, prefix[k] - before)
            && (LowerBound(prefix, u, 0) == k <==> before < u <= prefix[k])
  {
    var prefix := Prefixes(weights, n);
    PrefixStep(weights, n, k);
    var found := LowerBound(prefix, u, 0);
    if found < k {
      PrefixesRise(weights, n, found, k - 1);
    } else if k < found {
      assert prefix[k] < u;
    }
  }

  /** The 2048 least engine words pick the first person, whatever their weight. */
  lemma ZeroPicksTheFirst(weights: seq<real>, n: nat, word: u64)
    requires n > 0 && Cdf(weights, n).Some? && word < 2048
    ensures LowerBound(Prefixes(weights, n), RandomKernel.Fraction(word) * Prefixes(weights, n)[n - 1], 0) == 0
  {
    assert RandomKernel.Fraction(word) == 0.0;
    PrefixStep(weights, n, 0);
  }

  function Part(f: real, total: real): real {
    f * total
  }

  ghost function PickPerson(words: Words64, cdf: Option<seq<real>>, n: nat, pos: nat): (r: (nat, nat))
    requires Fair(words) && 0 < n < TWO32 && (cdf.Some? ==> |cdf.value| == n)
    ensures 1 <= r.0 <= n
  {
    if cdf.Some? then
      var u := Part(RandomKernel.Fraction(words.At(pos)), cdf.value[n - 1]);
      (1 + Min(LowerBound(cdf.value, u, 0), n - 1), pos + 1)
    else
      var (v, next) := Draw(words, n, pos);
      (1 + v, next)
  }

  datatype Picked = Picked(key: Key, person: nat)

  predicate Eligible(w: World, avoid: Key, at: int, alive: bool, person: nat)
    requires 1 <= person <= |w.accounts|
  {
    && w.accounts[person - 1].Some? && w.member(person, at, alive)
    && w.accounts[person - 1].value != avoid && w.accounts[person - 1].value !in w.excluded
  }

  // Person 0 says that no one was found.
  ghost function Pick(words: Words64, w: World, avoid: Key, cdf: Option<seq<real>>, at: int, alive: bool, tries: nat, pos: nat): (r: (Picked, nat))
    requires Fair(words) && ValidWorld(w) && (cdf.Some? ==> |cdf.value| == |w.accounts|)
    ensures r.0.person == 0 ==> r.0.key == avoid
    ensures r.0.person > 0 ==>
      && r.0.person <= |w.accounts| && Eligible(w, avoid, at, alive, r.0.person) && w.accounts[r.0.person - 1] == Some(r.0.key)
  {
    if tries == 0 then
      (Picked(avoid, 0), pos)
    else
      var (person, next) := PickPerson(words, cdf, |w.accounts|, pos);
      if Eligible(w, avoid, at, alive, person) then (Picked(w.accounts[person - 1].value, person), next)
      else Pick(words, w, avoid, cdf, at, alive, tries - 1, next)
  }

  // ---- One case ----

  type Unit = x: real | 0.0 <= x < 1.0

  datatype Uniforms = Uniforms(operator: Unit, proxy: Unit, proxyPick: Unit, victimEndpoint: Unit)

  datatype Case = Case(victim: Picked, drop: Picked, rail: Rail, startTs: int, span: int, target: int, eventEnd: int,
                       seqNo: nat, homeArea: Option<nat>, severity: real, uniforms: Uniforms)

  datatype Attempted = Stopped(pos: nat) | Refused(pos: nat) | Accepted(found: Case, pos: nat)

  function RailOf(u: real): Rail {
    if u < 0.48 then CardRail else if u < 0.60 then GiftCardScam else if u < 0.72 then ScamImpostor else Ato
  }

  function EventBase(r: Rail): nat {
    match r case CardRail => 5 case GiftCardScam => 2 case ScamImpostor => 1 case Ato => 3
  }

  function EventRange(r: Rail): nat {
    match r case CardRail => 10 case GiftCardScam => 5 case ScamImpostor => 3 case Ato => 6
  }

  function SpanBase(r: Rail): nat {
    match r case CardRail => 6 case GiftCardScam => 1 case ScamImpostor => 1 case Ato => 2
  }

  function SpanRange(r: Rail): nat {
    match r case CardRail => 66 case GiftCardScam => 4 case ScamImpostor => 6 case Ato => 30
  }

  function UsableDays(w: World): (d: int)
    ensures d >= 1
  {
    Max(1, w.days - 8)
  }

  // Some rails pay into an account the attacker controls.
  predicate NeedsDrop(r: Rail) {
    r == Ato || r == ScamImpostor
  }

  predicate SpanFits(eventEnd: int, startTs: int, span: int) {
    eventEnd == NEVER || (eventEnd > startTs && eventEnd - startTs >= span)
  }

  // Until when both participants can take part.
  function EventEnd(w: World, rail: Rail, victim: nat, drop: nat): int {
    var until := w.eligibleUntil(victim, Authorized(rail));
    if drop == 0 then until else Min(until, w.eligibleUntil(drop, false))
  }

  function SeverityOf(w: World, rail: Rail, victim: nat, startTs: int): real {
    if rail == ScamImpostor && victim != 0 then w.severity(victim, startTs) else 1.0
  }

  function StartTs(w: World, day: nat, u: real): int {
    w.windowStart + day * 86400 + 3600 + (u * 72000.0).Floor
  }

  function VictimCdf(w: World, rail: Rail, startTs: int): (c: Option<seq<real>>)
    requires |w.accounts| > 0
    ensures c.Some? ==> |c.value| == |w.accounts|
  {
    Cdf(if Authorized(rail) then w.scamWeights(startTs) else w.exposure, |w.accounts|)
  }

  ghost function DrawUniforms(words: Words64, pos: nat): Uniforms {
    Uniforms(RandomKernel.Fraction(words.At(pos)), RandomKernel.Fraction(words.At(pos + 1)),
             RandomKernel.Fraction(words.At(pos + 2)), RandomKernel.Fraction(words.At(pos + 3)))
  }

  // The rail, the number of events, the instant and the victim.
  datatype Opening = Opening(rail: Rail, events: int, startTs: int, victim: Picked, pos: nat)

  ghost function Open(words: Words64, w: World, pos: nat): (o: Opening)
    requires Fair(words) && ValidWorld(w)
    ensures EventBase(o.rail) <= o.events < EventBase(o.rail) + EventRange(o.rail)
    ensures w.windowStart + 3600 <= o.startTs < w.windowStart + UsableDays(w) * 86400 - 86400 + 75600
    ensures o.victim.person == 0 ==> o.victim.key == NO_KEY
    ensures o.victim.person > 0 ==>
      && o.victim.person <= |w.accounts| && w.accounts[o.victim.person - 1] == Some(o.victim.key)
      && Eligible(w, NO_KEY, o.startTs, Authorized(o.rail), o.victim.person)
  {
    var rail := RailOf(RandomKernel.Fraction(words.At(pos)));
    var (extra, p1) := Draw(words, EventRange(rail), pos + 1);
    var (day, p2) := Draw(words, UsableDays(w), p1);
    var startTs := StartTs(w, day, RandomKernel.Fraction(words.At(p2)));
    var (victim, p3) := Pick(words, w, NO_KEY, VictimCdf(w, rail, startTs), startTs, Authorized(rail), PICK_TRIES, p2 + 1);
    Opening(rail, EventBase(rail) + extra, startTs, victim, p3)
  }

  // The drop account and the span, once a victim is known.
  ghost function Close(words: Words64, w: World, o: Opening, remaining: int, seqNo: nat): (a: Attempted)
    requires Fair(words) && ValidWorld(w) && remaining > 0
  {
    if o.victim.key == NO_KEY then
      Stopped(o.pos)
    else
      var (drop, p) := if NeedsDrop(o.rail) then Pick(words, w, o.victim.key, None, o.startTs, false, PICK_TRIES, o.pos)
                       else (Picked(NO_KEY, 0), o.pos);
      if NeedsDrop(o.rail) && drop.key == o.victim.key then
        Stopped(p)
      else
        var (hours, q) := Draw(words, SpanRange(o.rail), p);
        var span := 3600 * (SpanBase(o.rail) + hours);
        var eventEnd := EventEnd(w, o.rail, o.victim.person, drop.person);
        if !SpanFits(eventEnd, o.startTs, span) then
          Refused(q)
        else
          Accepted(Case(o.victim, drop, o.rail, o.startTs, span, Min(remaining, o.events), eventEnd, seqNo,
                        w.homeArea(o.victim.person, o.startTs), SeverityOf(w, o.rail, o.victim.person, o.startTs),
                        DrawUniforms(words, q)), q + 4)
  }

  ghost function Attempt(words: Words64, w: World, remaining: int, seqNo: nat, pos: nat): Attempted
    requires Fair(words) && ValidWorld(w) && remaining > 0
  {
    Close(words, w, Open(words, w, pos), remaining, seqNo)
  }

  // What an accepted case guarantees.
  predicate SoundCase(w: World, c: Case, remaining: int) {
    && 1 <= c.target <= remaining && c.target < EventBase(c.rail) + EventRange(c.rail)
    && (c.target < remaining ==> c.target >= EventBase(c.rail))
    && 3600 * SpanBase(c.rail) <= c.span && SpanFits(c.eventEnd, c.startTs, c.span)
    && w.windowStart + 3600 <= c.startTs < w.windowStart + (UsableDays(w) - 1) * 86400 + 75600
    && 1 <= c.victim.person <= |w.accounts| && w.accounts[c.victim.person - 1] == Some(c.victim.key)
    && Eligible(w, NO_KEY, c.startTs, Authorized(c.rail), c.victim.person)
    && c.eventEnd <= w.eligibleUntil(c.victim.person, Authorized(c.rail))
    && if NeedsDrop(c.rail) then
         && 1 <= c.drop.person <= |w.accounts| && w.accounts[c.drop.person - 1] == Some(c.drop.key)
         && Eligible(w, c.victim.key, c.startTs, false, c.drop.person)
         && c.eventEnd <= w.eligibleUntil(c.drop.person, false)
       else
         c.drop == Picked(NO_KEY, 0)
  }

  lemma AcceptedIsSound(words: Words64, w: World, remaining: int, seqNo: nat, pos: nat)
    requires Fair(words) && ValidWorld(w) && remaining > 0
    ensures match Attempt(words, w, remaining, seqNo, pos)
            case Accepted(c, _) => SoundCase(w, c, remaining) && c.seqNo == seqNo
            case _ => true
  {
    hide Pick, Draw, PickPerson, Open;
  }

  // What an accepted case is by its rail: events, hours, whose life counts, and
  // whether the money lands with someone else.
  predicate ByRail(w: World, c: Case, remaining: int, least: nat, most: nat, hours: nat, longest: nat, scam: bool, drop: bool) {
    && (least <= c.target <= most || c.target == remaining < least)
    && 3600 * hours <= c.span <= 3600 * longest && c.span % 3600 == 0
    && w.member(c.victim.person, c.startTs, scam)
    && c.victim.key !in w.excluded && c.victim.key != NO_KEY
    && (drop ==>
          && 1 <= c.drop.person <= |w.accounts| && w.accounts[c.drop.person - 1] == Some(c.drop.key)
          && w.member(c.drop.person, c.startTs, false) && c.drop.key !in w.excluded && c.drop.key != c.victim.key
          && c.eventEnd == Min(w.eligibleUntil(c.victim.person, scam), w.eligibleUntil(c.drop.person, false)))
    && (!drop ==> c.drop == Picked(NO_KEY, 0) && c.eventEnd == w.eligibleUntil(c.victim.person, scam))
    && (c.eventEnd == 0x7FFF_FFFF_FFFF_FFFF || (c.eventEnd > c.startTs && c.eventEnd - c.startTs >= c.span))
  }

  /** The four kinds of case: card fraud, gift-card and impostor scams, and account
      takeover, each with its counts and hours. */
  lemma CasesByRail(words: Words64, w: World, remaining: int, seqNo: nat, pos: nat)
    requires Fair(words) && ValidWorld(w) && remaining > 0
    ensures match Attempt(words, w, remaining, seqNo, pos)
            case Accepted(c, _) =>
              && c.target <= remaining && CaseEnd(c) == c.startTs + c.span
              && w.windowStart + 3600 <= c.startTs < w.windowStart + 86400 * (if w.days > 9 then w.days - 9 else 0) + 75600
              && c.homeArea == w.homeArea(c.victim.person, c.startTs)
              && c.severity == (if c.rail == ScamImpostor then w.severity(c.victim.person, c.startTs) else 1.0)
              && (match c.rail
                  case CardRail => ByRail(w, c, remaining, 5, 14, 6, 71, false, false)
                  case GiftCardScam => ByRail(w, c, remaining, 2, 6, 1, 4, true, false)
                  case ScamImpostor => ByRail(w, c, remaining, 1, 3, 1, 6, true, true)
                  case Ato => ByRail(w, c, remaining, 3, 8, 2, 31, false, true))
            case _ => true
  {
    hide Pick, Draw, PickPerson, Open;
  }

  /** The second a case starts at is spread evenly over the twenty hours from one
      in the morning. */
  lemma StartIsEven(w: World, day: nat, u: Unit, k: nat)
    ensures StartTs(w, day, u) == w.windowStart + day * DAY + 3600 + k <==> k as real <= u * 72000.0 < (k + 1) as real
  {
  }

  // The engine words that choose a rail.
  ghost function RailWords(r: Rail): set<int> {
    set x: int | 0 <= x < TWO64 && RailOf(RandomKernel.Fraction(x)) == r
  }

  /** Of 100 cases 48 are card fraud, 12 of each scam and 28 takeovers: so many
      engine words choose each, up to the rounding of 2^53 parts. */
  lemma RailShares(c: nat, g: nat, s: nat)
    requires RandomKernel.LeastParts(c, 0.48) && RandomKernel.LeastParts(g, 0.60) && RandomKernel.LeastParts(s, 0.72)
    ensures |RailWords(CardRail)| == 2048 * c && |RailWords(GiftCardScam)| == 2048 * (g - c)
    ensures |RailWords(ScamImpostor)| == 2048 * (s - g) && |RailWords(Ato)| == TWO64 - 2048 * s
  {
    hide RandomKernel.Fraction;
    RandomKernel.CoinCounts(0.48, c);
    RandomKernel.CoinCounts(0.60, g);
    RandomKernel.CoinCounts(0.72, s);
    RandomKernel.FractionsAreUniform(RandomKernel.FRACTIONS);
    var card, gift, scam, all := RandomKernel.WordsBelow(0.48), RandomKernel.WordsBelow(0.60), RandomKernel.WordsBelow(0.72), RandomKernel.WordsBelow(1.0);
    assert RandomKernel.FRACTIONS as real / RandomKernel.FRACTIONS as real == 1.0;
    assert RailWords(CardRail) == card;
    assert RailWords(GiftCardScam) == gift - card && card <= gift;
    assert RailWords(ScamImpostor) == scam - gift && gift <= scam;
    assert RailWords(Ato) == all - scam && scam <= all;
  }

  // The entry a fraction of the total falls on has a weight, or is the first.
  lemma FractionFindsWeight(weights: seq<real>, n: nat, f: real)
    requires n > 0 && Cdf(weights, n).Some? && 0.0 <= f < 1.0
    ensures var k := LowerBound(Prefixes(weights, n), Part(f, Prefixes(weights, n)[n - 1]), 0);
            k < n && (0 < k < |weights| ==> weights[k] > 0.0)
  {
    hide Cdf, Part;
    CdfIs(weights, n);
    var total := Prefixes(weights, n)[n - 1];
    PartWithin(f, total);
    PickIsWeighted(weights, n, Part(f, total));
    if Part(f, total) <= 0.0 {
      PickFirst(weights, n, Part(f, total));
    }
  }

  // One person drawn by weight has one, or is the first.
  lemma PersonByWeight(words: Words64, weights: seq<real>, n: nat, pos: nat)
    requires Fair(words) && 0 < n < TWO32 && Cdf(weights, n).Some?
    ensures var p := PickPerson(words, Cdf(weights, n), n, pos).0; 1 < p <= |weights| ==> weights[p - 1] > 0.0
  {
    hide Draw, LowerBound, Cdf, Part;
    CdfIs(weights, n);
    FractionFindsWeight(weights, n, RandomKernel.Fraction(words.At(pos)));
  }

  lemma {:induction false} PickedByWeight(words: Words64, w: World, avoid: Key, weights: seq<real>, at: int, alive: bool, tries: nat, pos: nat)
    requires Fair(words) && ValidWorld(w) && Cdf(weights, |w.accounts|).Some?
    ensures var p := Pick(words, w, avoid, Cdf(weights, |w.accounts|), at, alive, tries, pos).0.person;
            1 < p <= |weights| ==> weights[p - 1] > 0.0
  {
    hide PickPerson, Eligible, Cdf;
    CdfIs(weights, |w.accounts|);
    if tries > 0 {
      var (person, next) := PickPerson(words, Cdf(weights, |w.accounts|), |w.accounts|, pos);
      PersonByWeight(words, weights, |w.accounts|, pos);
      if !Eligible(w, avoid, at, alive, person) {
        PickedByWeight(words, w, avoid, weights, at, alive, tries - 1, next);
      }
    }
  }

  lemma CdfIs(weights: seq<real>, n: nat)
    requires n > 0 && Cdf(weights, n).Some?
    ensures Cdf(weights, n).value == Prefixes(weights, n) && Prefixes(weights, n)[n - 1] > 0.0
  {
  }

  lemma PartWithin(f: real, total: real)
    requires 0.0 <= f < 1.0 && total > 0.0
    ensures 0.0 <= Part(f, total) <= total
  {
  }

  lemma PickFirst(weights: seq<real>, n: nat, u: real)
    requires n > 0 && Cdf(weights, n).Some? && u <= 0.0
    ensures LowerBound(Prefixes(weights, n), u, 0) == 0
  {
    PrefixStep(weights, n, 0);
  }

  /** The victims of scams are found by their scam weights of the day, all others by
      their exposure: past the first person, no one of no weight is found. */
  lemma VictimsAreWeighted(words: Words64, w: World, pos: nat)
    requires Fair(words) && ValidWorld(w)
    ensures var o := Open(words, w, pos);
            var weights := if o.rail == GiftCardScam || o.rail == ScamImpostor then w.scamWeights(o.startTs) else w.exposure;
            Cdf(weights, |w.accounts|).Some? && 1 < o.victim.person <= |weights| ==> weights[o.victim.person - 1] > 0.0
  {
    hide Pick, Draw, Cdf, StartTs;
    var rail := RailOf(RandomKernel.Fraction(words.At(pos)));
    var p1 := Draw(words, EventRange(rail), pos + 1).1;
    var (day, p2) := Draw(words, UsableDays(w), p1);
    var startTs := StartTs(w, day, RandomKernel.Fraction(words.At(p2)));
    var weights := if rail == GiftCardScam || rail == ScamImpostor then w.scamWeights(startTs) else w.exposure;
    if Cdf(weights, |w.accounts|).Some? {
      PickedByWeight(words, w, NO_KEY, weights, startTs, Authorized(rail), PICK_TRIES, p2 + 1);
    }
  }

  // ---- The run of attempts ----

  ghost function PlanRun(words: Words64, w: World, remaining: int, rejects: nat, seqNo: nat, pos: nat): (r: (seq<Case>, nat))
    requires Fair(words) && ValidWorld(w) && rejects < MAX_RESAMPLES
    decreases if remaining > 0 then remaining else 0, MAX_RESAMPLES - rejects
  {
    if remaining <= 0 then
      ([], pos)
    else
      match Attempt(words, w, remaining, seqNo, pos)
      case Stopped(p) => ([], p)
      case Refused(p) => if rejects + 1 >= MAX_RESAMPLES then ([], p) else PlanRun(words, w, remaining, rejects + 1, seqNo, p)
      case Accepted(c, p) =>
        AcceptedIsSound(words, w, remaining, seqNo, pos);
        var (rest, end) := PlanRun(words, w, remaining - c.target, 0, seqNo + 1, p);
        ([c] + rest, end)
  }

  function Targets(cases: seq<Case>): int {
    if cases == [] then 0 else cases[0].target + Targets(cases[1..])
  }

  // Each case is sound for what the ones before it left of the budget.
  predicate SoundCases(w: World, cases: seq<Case>, remaining: int, seqNo: nat) {
    cases == [] ||
    (SoundCase(w, cases[0], remaining) && cases[0].seqNo == seqNo && SoundCases(w, cases[1..], remaining - cases[0].target, seqNo + 1))
  }

  /** The accepted cases never overspend the budget, each one fits its whole
      span and spares ring members, and they are numbered in order. */
  lemma {:induction false} RunIsSound(words: Words64, w: World, remaining: int, rejects: nat, seqNo: nat, pos: nat)
    requires Fair(words) && ValidWorld(w) && rejects < MAX_RESAMPLES
    ensures var cases := PlanRun(words, w, remaining, rejects, seqNo, pos).0;
            SoundCases(w, cases, remaining, seqNo) && Targets(cases) <= Max(0, remaining)
    decreases if remaining > 0 then remaining else 0, MAX_RESAMPLES - rejects
  {
    hide SoundCase, Attempt;
    if remaining > 0 {
      var cases := PlanRun(words, w, remaining, rejects, seqNo, pos).0;
      AcceptedIsSound(words, w, remaining, seqNo, pos);
      match Attempt(words, w, remaining, seqNo, pos)
      case Stopped(p) =>
      case Refused(p) =>
        if rejects + 1 < MAX_RESAMPLES {
          RunIsSound(words, w, remaining, rejects + 1, seqNo, p);
        }
      case Accepted(c, p) =>
        TargetFits(w, c, remaining);
        RunIsSound(words, w, remaining - c.target, 0, seqNo + 1, p);
        assert cases[0] == c && cases[1..] == PlanRun(words, w, remaining - c.target, 0, seqNo + 1, p).0;
    }
  }

  lemma TargetFits(w: World, c: Case, remaining: int)
    requires SoundCase(w, c, remaining)
    ensures 1 <= c.target <= remaining
  {
  }

  // ---- Endpoints ----

  datatype Attackers = Attackers(operators: nat, operatorAt: (real, int) -> Option<nat>,
    deviceAt: (nat, int, int, nat) -> Option<nat>, ipAt: (nat, int, int, nat) -> Option<nat>, hostAt: nat -> Option<nat>)

  datatype Router = Router(liveIpFor: (nat, int, int, nat) -> Option<nat>, liveDeviceFor: (nat, int, int, nat) -> Option<nat>,
    publicDeviceForCase: (nat, int, int) -> Option<nat>)

  datatype Domain = BorrowCase | BurnerCase | TerminalCase | TerminalPick

  // Hashes of the case number, the victim and a device.
  datatype Derived = Derived(caseUnit: (Domain, nat, nat) -> Unit, burnerFrom: (nat, nat) -> nat, endpointIp: nat -> nat)

  datatype Endpoint = Endpoint(device: Option<nat>, ip: Option<nat>, campaign: Option<nat>)

  const NO_ENDPOINT := Endpoint(None, None, None)

  datatype CompromisePlan = CompromisePlan(
    victimAccount: Key, dropAccount: Key, device: Option<nat>, ip: Option<nat>, rail: Rail, startTs: int,
    spanSeconds: int, targetEvents: int, eventEnd: int, seqNo: nat, homeArea: Option<nat>, severity: real, campaign: Option<nat>)

  function PlanOf(c: Case, e: Endpoint): CompromisePlan {
    CompromisePlan(c.victim.key, c.drop.key, e.device, e.ip, c.rail, c.startTs, c.span, c.target, c.eventEnd, c.seqNo,
                   c.homeArea, c.severity, e.campaign)
  }

  /** A plan pays from the victim into the drop account over the case's rail, time
      and target, and carries the endpoint's device, address and campaign. */
  lemma PlanCarries(c: Case, e: Endpoint)
    ensures var p := PlanOf(c, e);
            && p.victimAccount == c.victim.key && p.dropAccount == c.drop.key && p.rail == c.rail
            && p.device == e.device && p.ip == e.ip && p.campaign == e.campaign
            && p.startTs == c.startTs && p.spanSeconds == c.span && p.targetEvents == c.target && p.eventEnd == c.eventEnd
            && p.seqNo == c.seqNo && p.homeArea == c.homeArea && p.severity == c.severity
  {
  }

  // A plan without its endpoint.
  function Bare(p: CompromisePlan): CompromisePlan {
    p.(device := None, ip := None, campaign := None)
  }

  function CampaignOf(attackers: Option<Attackers>, c: Case): Option<nat> {
    if Authorized(c.rail) || attackers == None || attackers.value.operators == 0 then None
    else attackers.value.operatorAt(c.uniforms.operator, c.startTs)
  }

  function CaseEnd(c: Case): int {
    c.startTs + Max(2, c.span)
  }

  // The person an even fraction of the population falls on.
  function PersonAt(u: Unit, limit: nat): (p: nat)
    requires limit > 0
    ensures 1 <= p <= limit
  {
    NotNegative(u, limit as real);
    1 + Min((u * limit as real).Floor, limit - 1)
  }

  /** Everyone up to the limit has an equal part of the fractions. */
  lemma PersonIsEven(u: Unit, limit: nat, p: nat)
    requires 1 <= p <= limit
    ensures PersonAt(u, limit) == p <==> (p - 1) as real <= u * limit as real < p as real
  {
    BelowLimit(u, limit as real);
  }

  lemma BelowLimit(u: Unit, x: real)
    requires x > 0.0
    ensures 0.0 <= u * x < x
  {
  }

  lemma NotNegative(x: real, y: real)
    requires x >= 0.0 && y >= 0.0
    ensures x * y >= 0.0
  {
  }

  // The campaign's address, or a borrowed residential one.
  function ExitIp(a: Attackers, router: Option<Router>, limit: nat, op: nat, c: Case): Option<nat> {
    var own := a.ipAt(op, c.startTs, CaseEnd(c), c.seqNo);
    if c.uniforms.proxy < 0.30 && router.Some? && limit > 0 then
      var borrowed := router.value.liveIpFor(PersonAt(c.uniforms.proxyPick, limit), c.startTs, CaseEnd(c), c.seqNo);
      if borrowed.Some? then borrowed else own
    else
      own
  }

  // The machine of a compromised host other than the victim, if this case borrows one.
  function BorrowedHost(a: Attackers, router: Option<Router>, limit: nat, d: Derived, c: Case): Option<nat> {
    if d.caseUnit(BorrowCase, c.seqNo, c.victim.person) < 0.25 && router.Some? && limit > 0 then
      var host := a.hostAt(c.seqNo);
      if host.Some? && host.value != c.victim.person && host.value <= limit then host else None
    else
      None
  }

  function Terminal(router: Option<Router>, limit: nat, d: Derived, c: Case): Option<nat> {
    if router.Some? && limit > 0 && d.caseUnit(TerminalCase, c.seqNo, c.victim.person) < 0.12 then
      router.value.publicDeviceForCase(PersonAt(d.caseUnit(TerminalPick, c.seqNo, c.victim.person), limit), c.startTs, CaseEnd(c))
    else
      None
  }

  // What replaces the campaign's own device and address: a borrowed machine, a
  // public terminal or a burner, in that order.
  function Disguise(a: Attackers, router: Option<Router>, limit: nat, d: Derived, c: Case, device: nat, ip: nat): (nat, nat) {
    var host := BorrowedHost(a, router, limit, d, c);
    var machine := if host.Some? then router.value.liveDeviceFor(host.value, c.startTs, CaseEnd(c), c.seqNo) else None;
    if machine.Some? then
      var hostIp := router.value.liveIpFor(host.value, c.startTs, CaseEnd(c), c.seqNo);
      (machine.value, if hostIp.Some? then hostIp.value else ip)
    else
      var terminal := Terminal(router, limit, d, c);
      if terminal.Some? then
        (terminal.value, d.endpointIp(terminal.value))
      else if d.caseUnit(BurnerCase, c.seqNo, c.victim.person) < 0.15 then
        var burner := d.burnerFrom(device, c.seqNo);
        (burner, d.endpointIp(burner))
      else
        (device, ip)
  }

  function Resolve(attackers: Option<Attackers>, router: Option<Router>, limit: nat, d: Derived, c: Case): Endpoint {
    var campaign := CampaignOf(attackers, c);
    if campaign == None || c.uniforms.victimEndpoint < 0.30 then
      Endpoint(None, None, campaign)
    else
      var a := attackers.value;
      var device := a.deviceAt(campaign.value, c.startTs, CaseEnd(c), c.seqNo);
      var ip := ExitIp(a, router, limit, campaign.value, c);
      if device.Some? && ip.Some? then
        var (theirs, exit) := Disguise(a, router, limit, d, c, device.value, ip.value);
        Endpoint(Some(theirs), Some(exit), campaign)
      else
        Endpoint(None, None, campaign)
  }

  /** A case carries a whole endpoint or none; authorised payments carry none and
      no campaign, and an endpoint implies the campaign that brought it. */
  lemma EndpointsArePaired(attackers: Option<Attackers>, router: Option<Router>, limit: nat, d: Derived, c: Case)
    ensures var e := Resolve(attackers, router, limit, d, c);
            && (e.device.Some? <==> e.ip.Some?) && (e.device.Some? ==> e.campaign.Some?)
            && (Authorized(c.rail) ==> e == NO_ENDPOINT)
  {
  }

  // ---- The plans ----

  function Completed(attackers: Option<Attackers>, router: Option<Router>, limit: nat, d: Derived, cases: seq<Case>): (plans: seq<CompromisePlan>)
    ensures |plans| == |cases|
    ensures forall i :: 0 <= i < |cases| ==> plans[i] == PlanOf(cases[i], Resolve(attackers, router, limit, d, cases[i]))
  {
    if cases == [] then []
    else [PlanOf(cases[0], Resolve(attackers, router, limit, d, cases[0]))] + Completed(attackers, router, limit, d, cases[1..])
  }

  /** All the plans of a budget, and where they leave the generator. */
  ghost function Plans(words: Words64, w: World, budget: int, pos: nat, attackers: Option<Attackers>, router: Option<Router>, d: Derived):
    (seq<CompromisePlan>, nat)
    requires Fair(words) && (w.accounts != [] ==> ValidWorld(w))
  {
    if w.accounts == [] then
      ([], pos)
    else
      var (cases, end) := PlanRun(words, w, budget, 0, 0, pos);
      (Completed(attackers, router, |w.accounts|, d, cases), end)
  }

  /** Runs that differ only in the attackers and the router plan the same cases:
      equal in everything but device, address and campaign, and leaving the
      generator at the same position. */
  lemma AttackersDoNotInterfere(words: Words64, w: World, budget: int, pos: nat, d: Derived,
                                a1: Option<Attackers>, r1: Option<Router>, a2: Option<Attackers>, r2: Option<Router>)
    requires Fair(words) && (w.accounts != [] ==> ValidWorld(w))
    ensures var (one, end1) := Plans(words, w, budget, pos, a1, r1, d);
            var (two, end2) := Plans(words, w, budget, pos, a2, r2, d);
            && end1 == end2 && |one| == |two|
            && forall i :: 0 <= i < |one| ==> Bare(one[i]) == Bare(two[i])
  {
    hide PlanRun, Resolve, Completed;
  }

  /** What every plan guarantees, in terms of the plan itself. */
  predicate SoundPlan(w: World, p: CompromisePlan, i: nat) {
    && p.seqNo == i && p.targetEvents >= 1 && SpanFits(p.eventEnd, p.startTs, p.spanSeconds)
    && p.victimAccount !in w.excluded && p.victimAccount != NO_KEY
    && (NeedsDrop(p.rail) ==> p.dropAccount !in w.excluded && p.dropAccount != p.victimAccount)
    && (!NeedsDrop(p.rail) ==> p.dropAccount == NO_KEY)
    && (p.device.Some? <==> p.ip.Some?) && (Authorized(p.rail) ==> p.device == None && p.campaign == None)
  }

  lemma {:induction false} SoundCaseAt(w: World, cases: seq<Case>, remaining: int, seqNo: nat, i: nat)
    requires SoundCases(w, cases, remaining, seqNo) && i < |cases|
    ensures cases[i].seqNo == seqNo + i && exists left: int :: SoundCase(w, cases[i], left)
  {
    hide SoundCase;
    if i > 0 {
      SoundCaseAt(w, cases[1..], remaining - cases[0].target, seqNo + 1, i - 1);
    }
  }

  function TargetSum(plans: seq<CompromisePlan>): int {
    if plans == [] then 0 else plans[0].targetEvents + TargetSum(plans[1..])
  }

  lemma {:induction false} SameTargets(attackers: Option<Attackers>, router: Option<Router>, limit: nat, d: Derived, cases: seq<Case>)
    ensures TargetSum(Completed(attackers, router, limit, d, cases)) == Targets(cases)
  {
    hide Resolve;
    if cases != [] {
      SameTargets(attackers, router, limit, d, cases[1..]);
      var plans := Completed(attackers, router, limit, d, cases);
      assert plans[1..] == Completed(attackers, router, limit, d, cases[1..]);
    }
  }

  /** The plans never sum past the budget, and each one is sound. */
  lemma PlansAreSound(words: Words64, w: World, budget: int, pos: nat, attackers: Option<Attackers>, router: Option<Router>, d: Derived)
    requires Fair(words) && (w.accounts != [] ==> ValidWorld(w))
    ensures var plans := Plans(words, w, budget, pos, attackers, router, d).0;
            TargetSum(plans) <= Max(0, budget) && forall i: nat :: i < |plans| ==> SoundPlan(w, plans[i], i)
  {
    hide PlanRun, Resolve, Completed, SoundCases;
    if w.accounts != [] {
      RunIsSound(words, w, budget, 0, 0, pos);
      var cases := PlanRun(words, w, budget, 0, 0, pos).0;
      SameTargets(attackers, router, |w.accounts|, d, cases);
      forall i: nat | i < |cases| ensures SoundPlan(w, PlanOf(cases[i], Resolve(attackers, router, |w.accounts|, d, cases[i])), i) {
        SoundCaseAt(w, cases, budget, 0, i);
        EndpointsArePaired(attackers, router, |w.accounts|, d, cases[i]);
      }
    } else {
      NoPlans();
    }
  }

  lemma NoPlans()
    ensures TargetSum([]) == 0
  {
  }
}
