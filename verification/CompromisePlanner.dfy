/** The planner itself: it draws case after case until the budget is spent, no
    one can be picked, or too many cases in a row do not fit. */
module CompromisePlanners {
  import opened Words
  import opened Keys
  import opened Bounded
  import RandomKernel
  import opened FraudPlanning

  method MakeCdf(weights: seq<real>, limit: nat) returns (cdf: Option<seq<real>>)
    requires limit > 0
    ensures cdf == Cdf(weights, limit)
  {
    hide WeightAt;
    if weights == [] {
      return None;
    }
    var total := 0.0;
    var prefix: seq<real> := [];
    for i := 0 to limit
      invariant prefix == Prefixes(weights, i) && total == if i == 0 then 0.0 else prefix[i - 1]
    {
      total := total + WeightAt(weights, i);
      prefix := prefix + [total];
    }
    if total <= 0.0 {
      return None;
    }
    cdf := Some(prefix);
  }

  class CompromisePlanner {
    const rng: RandomKernel.Rng
    const world: World
    var exposure: Option<seq<real>>
    var scamCdf: Option<seq<real>>
    var scamCached: bool
    var scamCachedTs: int

    ghost predicate Valid()
      reads this
    {
      && Fair(rng.words) && ValidWorld(world)
      && exposure == Cdf(world.exposure, |world.accounts|)
      && (scamCached ==> scamCdf == Cdf(world.scamWeights(scamCachedTs), |world.accounts|))
    }

    constructor (rng: RandomKernel.Rng, world: World)
      requires Fair(rng.words) && ValidWorld(world)
      ensures Valid() && this.rng == rng && this.world == world
    {
      this.rng, this.world := rng, world;
      var cdf := MakeCdf(world.exposure, |world.accounts|);
      exposure, scamCdf, scamCached, scamCachedTs := cdf, None, false, 0;
    }

    /** The susceptibility of the case date, rebuilt when the date changes. */
    method ScamCdfAt(ts: int) returns (cdf: Option<seq<real>>)
      requires Valid()
      modifies this`scamCdf, this`scamCached, this`scamCachedTs
      ensures Valid() && cdf == Cdf(world.scamWeights(ts), |world.accounts|)
    {
      if !scamCached || ts != scamCachedTs {
        scamCdf := MakeCdf(world.scamWeights(ts), |world.accounts|);
        scamCachedTs := ts;
        scamCached := true;
      }
      cdf := scamCdf;
    }

    method PickFrom(avoid: Key, cdf: Option<seq<real>>, at: int, alive: bool) returns (picked: Picked)
      requires Valid() && (cdf.Some? ==> |cdf.value| == |world.accounts|)
      modifies rng
      ensures (picked, rng.pos) == Pick(rng.words, world, avoid, cdf, at, alive, PICK_TRIES, old(rng.pos))
    {
      hide Cdf, Pick, PickPerson, Eligible, ValidWorld;
      ghost var start := rng.pos;
      for attempt := 0 to PICK_TRIES
        invariant Pick(rng.words, world, avoid, cdf, at, alive, PICK_TRIES, start) ==
                    Pick(rng.words, world, avoid, cdf, at, alive, PICK_TRIES - attempt, rng.pos)
      {
        PickUnfolds(rng.words, world, avoid, cdf, at, alive, PICK_TRIES - attempt, rng.pos);
        var person := DrawPerson(cdf);
        if Eligible(world, avoid, at, alive, person) {
          EligibleHasAccount(world, avoid, at, alive, person);
          return Picked(world.accounts[person - 1].value, person);
        }
      }
      PickUnfolds(rng.words, world, avoid, cdf, at, alive, 0, rng.pos);
      picked := Picked(avoid, 0);
    }

    method DrawPerson(cdf: Option<seq<real>>) returns (person: nat)
      requires Valid() && (cdf.Some? ==> |cdf.value| == |world.accounts|)
      modifies rng
      ensures (person, rng.pos) == PickPerson(rng.words, cdf, |world.accounts|, old(rng.pos))
    {
      hide Cdf, LowerBound, Draw;
      if cdf.Some? {
        var unit := rng.NextDouble();
        var u := unit * cdf.value[|cdf.value| - 1];
        person := 1 + Min(LowerBound(cdf.value, u, 0), |world.accounts| - 1);
      } else {
        var choice := rng.ChoiceIndex(|world.accounts|);
        person := 1 + choice.value;
      }
    }

    method DrawOpening() returns (o: Opening)
      requires Valid()
      modifies this`scamCdf, this`scamCached, this`scamCachedTs, rng
      ensures Valid() && o == Open(rng.words, world, old(rng.pos)) && o.pos == rng.pos
    {
      hide Cdf, Pick, Draw;
      var railDraw := rng.NextDouble();
      var rail := RailOf(railDraw);
      var extra := rng.ChoiceIndex(EventRange(rail));
      var day := rng.ChoiceIndex(UsableDays(world));
      var within := rng.NextDouble();
      var startTs := StartTs(world, day.value, within);
      var cdf := exposure;
      if Authorized(rail) {
        cdf := ScamCdfAt(startTs);
      }
      CdfLength(world, rail, startTs);
      var victim := PickFrom(NO_KEY, cdf, startTs, Authorized(rail));
      o := Opening(rail, EventBase(rail) + extra.value, startTs, victim, rng.pos);
    }

    // Four uniforms, whatever becomes of them.
    method DrawFour() returns (u: Uniforms)
      modifies rng
      ensures u == DrawUniforms(rng.words, old(rng.pos)) && rng.pos == old(rng.pos) + 4
    {
      hide RandomKernel.Fraction;
      var operatorU := rng.NextDouble();
      var proxyU := rng.NextDouble();
      var proxyPickU := rng.NextDouble();
      var victimEndpointU := rng.NextDouble();
      u := Uniforms(operatorU, proxyU, proxyPickU, victimEndpointU);
    }

    method DrawClosing(o: Opening, remaining: int, seqNo: nat) returns (a: Attempted)
      requires Valid() && remaining > 0 && o.pos == rng.pos
      modifies rng
      ensures a == Close(rng.words, world, o, remaining, seqNo) && a.pos == rng.pos
    {
      hide Pick, Draw, DrawUniforms, EventEnd, SeverityOf, RandomKernel.Fraction, EventBase, EventRange, SpanBase, SpanRange;
      if o.victim.key == NO_KEY {
        return Stopped(rng.pos);
      }
      var drop := Picked(NO_KEY, 0);
      if NeedsDrop(o.rail) {
        drop := PickFrom(o.victim.key, None, o.startTs, false);
        if drop.key == o.victim.key {
          return Stopped(rng.pos);
        }
      }
      SpanRanges(o.rail);
      var hours := rng.ChoiceIndex(SpanRange(o.rail));
      var span := 3600 * (SpanBase(o.rail) + hours.value);
      var eventEnd := EventEnd(world, o.rail, o.victim.person, drop.person);
      if eventEnd != NEVER && (eventEnd <= o.startTs || eventEnd - o.startTs < span) {
        return Refused(rng.pos);
      }
      var uniforms := DrawFour();
      a := Accepted(Case(o.victim, drop, o.rail, o.startTs, span, Min(remaining, o.events), eventEnd, seqNo,
                         world.homeArea(o.victim.person, o.startTs), SeverityOf(world, o.rail, o.victim.person, o.startTs),
                         uniforms), rng.pos);
    }

    /** Lays an endpoint over a case; the generator is not consulted. */
    method ResolveEndpoint(attackers: Option<Attackers>, router: Option<Router>, d: Derived, c: Case) returns (e: Endpoint)
      ensures e == Resolve(attackers, router, |world.accounts|, d, c)
    {
      var limit := |world.accounts|;
      var campaign: Option<nat> := None;
      if !Authorized(c.rail) && attackers.Some? && attackers.value.operators > 0 {
        campaign := attackers.value.operatorAt(c.uniforms.operator, c.startTs);
      }
      if Authorized(c.rail) || c.uniforms.victimEndpoint < 0.30 || campaign == None {
        return Endpoint(None, None, campaign);
      }
      var a := attackers.value;
      var device := a.deviceAt(campaign.value, c.startTs, CaseEnd(c), c.seqNo);
      var ip := a.ipAt(campaign.value, c.startTs, CaseEnd(c), c.seqNo);
      if c.uniforms.proxy < 0.30 && router.Some? && limit > 0 {
        var borrowedIp := router.value.liveIpFor(PersonAt(c.uniforms.proxyPick, limit), c.startTs, CaseEnd(c), c.seqNo);
        if borrowedIp.Some? {
          ip := borrowedIp;
        }
      }
      if device == None || ip == None {
        return Endpoint(None, None, campaign);
      }
      var borrowed, onTerminal := false, false;
      if d.caseUnit(BorrowCase, c.seqNo, c.victim.person) < 0.25 && router.Some? && limit > 0 {
        var host := a.hostAt(c.seqNo);
        if host.Some? && host.value != c.victim.person && host.value <= limit {
          var machine := router.value.liveDeviceFor(host.value, c.startTs, CaseEnd(c), c.seqNo);
          if machine.Some? {
            device, borrowed := machine, true;
            var hostIp := router.value.liveIpFor(host.value, c.startTs, CaseEnd(c), c.seqNo);
            if hostIp.Some? {
              ip := hostIp;
            }
          }
        }
      }
      if !borrowed && router.Some? && limit > 0 && d.caseUnit(TerminalCase, c.seqNo, c.victim.person) < 0.12 {
        var terminal := router.value.publicDeviceForCase(PersonAt(d.caseUnit(TerminalPick, c.seqNo, c.victim.person), limit), c.startTs, CaseEnd(c));
        if terminal.Some? {
          device, ip, onTerminal := terminal, Some(d.endpointIp(terminal.value)), true;
        }
      }
      if !borrowed && !onTerminal && d.caseUnit(BurnerCase, c.seqNo, c.victim.person) < 0.15 {
        device := Some(d.burnerFrom(device.value, c.seqNo));
        ip := Some(d.endpointIp(device.value));
      }
      e := Endpoint(device, ip, campaign);
    }

    /** Plans cases while the budget lasts. */
    method Build(budget: int, attackers: Option<Attackers>, router: Option<Router>, d: Derived) returns (plans: seq<CompromisePlan>)
      requires Valid()
      modifies this`scamCdf, this`scamCached, this`scamCachedTs, rng
      ensures Valid()
      ensures (plans, rng.pos) == Plans(rng.words, world, budget, old(rng.pos), attackers, router, d)
    {
      hide PlanRun, Resolve, Completed, Open, Close, Cdf, SoundCase;
      plans := [];
      var remaining, seqNo, rejects := budget, 0, 0;
      ghost var start := rng.pos;
      ghost var whole := PlanRun(rng.words, world, budget, 0, 0, start);
      ghost var done: seq<Case> := [];
      NothingCompleted(attackers, router, |world.accounts|, d);
      while remaining > 0
        invariant Valid() && rejects < MAX_RESAMPLES
        invariant plans == Completed(attackers, router, |world.accounts|, d, done)
        invariant Continues(whole, done, PlanRun(rng.words, world, remaining, rejects, seqNo, rng.pos))
        decreases if remaining > 0 then remaining else 0, MAX_RESAMPLES - rejects
      {
        ghost var pos := rng.pos;
        var opening := DrawOpening();
        var attempted := DrawClosing(opening, remaining, seqNo);
        RunUnfolds(rng.words, world, remaining, rejects, seqNo, pos);
        AcceptedIsSound(rng.words, world, remaining, seqNo, pos);
        if attempted.Stopped? {
          break;
        }
        if attempted.Refused? {
          rejects := rejects + 1;
          if rejects >= MAX_RESAMPLES {
            break;
          }
          continue;
        }
        rejects := 0;
        var found := attempted.found;
        TargetFits(world, found, remaining);
        var e := ResolveEndpoint(attackers, router, d, found);
        OneMore(attackers, router, |world.accounts|, d, done, found);
        ContinuesNext(whole, done, found, PlanRun(rng.words, world, remaining - found.target, 0, seqNo + 1, rng.pos));
        plans := plans + [PlanOf(found, e)];
        done := done + [found];
        remaining := remaining - found.target;
        seqNo := seqNo + 1;
      }
      if remaining <= 0 {
        RunEnds(rng.words, world, remaining, rejects, seqNo, rng.pos);
      }
      assert done + [] == done;
    }
  }

  /** Plans nothing without a budget or a population. */
  method BuildCompromisePlans(rng: RandomKernel.Rng, world: World, budget: int, attackers: Option<Attackers>,
                              router: Option<Router>, d: Derived) returns (plans: seq<CompromisePlan>)
    requires Fair(rng.words) && (world.accounts != [] ==> ValidWorld(world))
    modifies rng
    ensures (plans, rng.pos) == Plans(rng.words, world, budget, old(rng.pos), attackers, router, d)
  {
    hide Cdf, Completed, Attempt;
    NothingCompleted(attackers, router, |world.accounts|, d);
    if budget <= 0 {
      return [];
    }
    if world.accounts == [] {
      return [];
    }
    var planner := new CompromisePlanner(rng, world);
    plans := planner.Build(budget, attackers, router, d);
  }

  // What is left of a run completes what has been done of it.
  predicate Continues(whole: (seq<Case>, nat), done: seq<Case>, rest: (seq<Case>, nat)) {
    whole.0 == done + rest.0 && whole.1 == rest.1
  }

  lemma ContinuesNext(whole: (seq<Case>, nat), done: seq<Case>, c: Case, rest: (seq<Case>, nat))
    requires Continues(whole, done, ([c] + rest.0, rest.1))
    ensures Continues(whole, done + [c], rest)
  {
    assert done + ([c] + rest.0) == (done + [c]) + rest.0;
  }

  lemma SpanRanges(rail: Rail)
    ensures 0 < SpanRange(rail) < TWO64
  {
  }

  lemma PickUnfolds(words: Words64, w: World, avoid: Key, cdf: Option<seq<real>>, at: int, alive: bool, tries: nat, pos: nat)
    requires Fair(words) && ValidWorld(w) && (cdf.Some? ==> |cdf.value| == |w.accounts|)
    ensures 0 < |w.accounts| < TWO32
    ensures Pick(words, w, avoid, cdf, at, alive, tries, pos) ==
              if tries == 0 then (Picked(avoid, 0), pos)
              else
                var (person, next) := PickPerson(words, cdf, |w.accounts|, pos);
                if Eligible(w, avoid, at, alive, person) then (Picked(w.accounts[person - 1].value, person), next)
                else Pick(words, w, avoid, cdf, at, alive, tries - 1, next)
  {
    hide PickPerson;
  }

  lemma EligibleHasAccount(w: World, avoid: Key, at: int, alive: bool, person: nat)
    requires 1 <= person <= |w.accounts| && Eligible(w, avoid, at, alive, person)
    ensures w.accounts[person - 1].Some?
  {
  }

  lemma RunUnfolds(words: Words64, w: World, remaining: int, rejects: nat, seqNo: nat, pos: nat)
    requires Fair(words) && ValidWorld(w) && rejects < MAX_RESAMPLES && remaining > 0
    ensures Attempt(words, w, remaining, seqNo, pos) == Close(words, w, Open(words, w, pos), remaining, seqNo)
    ensures PlanRun(words, w, remaining, rejects, seqNo, pos) ==
              match Attempt(words, w, remaining, seqNo, pos)
              case Stopped(p) => ([], p)
              case Refused(p) => if rejects + 1 >= MAX_RESAMPLES then ([], p) else PlanRun(words, w, remaining, rejects + 1, seqNo, p)
              case Accepted(c, p) =>
                ([c] + PlanRun(words, w, remaining - c.target, 0, seqNo + 1, p).0,
                 PlanRun(words, w, remaining - c.target, 0, seqNo + 1, p).1)
  {
    hide Open, Close;
  }

  lemma RunEnds(words: Words64, w: World, remaining: int, rejects: nat, seqNo: nat, pos: nat)
    requires Fair(words) && ValidWorld(w) && rejects < MAX_RESAMPLES
    ensures remaining <= 0 ==> PlanRun(words, w, remaining, rejects, seqNo, pos) == ([], pos)
  {
  }

  lemma NothingCompleted(attackers: Option<Attackers>, router: Option<Router>, limit: nat, d: Derived)
    ensures Completed(attackers, router, limit, d, []) == []
  {
  }

  lemma {:induction false} OneMore(attackers: Option<Attackers>, router: Option<Router>, limit: nat, d: Derived, cases: seq<Case>, c: Case)
    ensures Completed(attackers, router, limit, d, cases + [c]) ==
              Completed(attackers, router, limit, d, cases) + [PlanOf(c, Resolve(attackers, router, limit, d, c))]
  {
    hide Resolve;
    var longer := Completed(attackers, router, limit, d, cases + [c]);
    var shorter := Completed(attackers, router, limit, d, cases);
    assert forall i :: 0 <= i < |cases| ==> (cases + [c])[i] == cases[i];
    assert longer == shorter + [PlanOf(c, Resolve(attackers, router, limit, d, c))];
  }

  lemma CdfLength(w: World, rail: Rail, startTs: int)
    requires |w.accounts| > 0
    ensures VictimCdf(w, rail, startTs).Some? ==> |VictimCdf(w, rail, startTs).value| == |w.accounts|
  {
  }
}
