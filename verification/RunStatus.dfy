/** What becomes of every run's status: which runs end, how, and for how long. */
module RunStatus {
  import opened Words
  import opened RunProtocol
  import opened RunSafety

  // ---- One statement ----

  predicate Ended(db: Db, id: nat) {
    id in db.manifest && db.manifest[id].status != Running
  }

  predicate IsComplete(db: Db, id: nat) {
    id in db.manifest && db.manifest[id].status == Complete
  }

  // Runs stay, under their configuration, and what has ended keeps its status.
  ghost predicate Continues(before: Db, after: Db) {
    && (forall id :: id in before.manifest ==>
          id in after.manifest && after.manifest[id].config == before.manifest[id].config)
    && (forall id :: Ended(before, id) ==> after.manifest[id] == before.manifest[id])
  }

  lemma ContinuesOn(a: Db, b: Db, c: Db)
    requires Continues(a, b) && Continues(b, c)
    ensures Continues(a, c)
  {
    forall id | Ended(a, id) ensures c.manifest[id] == a.manifest[id] {
      assert Ended(b, id);
    }
  }

  lemma StatementContinues(db: Db, s: Statement, streams: map<nat, Stream>)
    requires Proper(db, s, streams)
    ensures Continues(db, Apply(db, s))
    ensures forall id :: IsComplete(Apply(db, s), id) ==> IsComplete(db, id) || s == MarkComplete(id)
  {
  }

  // ---- A script ----

  // The n-th statement marks the run complete, with its whole stream in the table.
  ghost predicate Completes(db: Db, script: seq<Statement>, n: nat, id: nat, streams: map<nat, Stream>) {
    n < |script| && script[n] == MarkComplete(id) && Whole(Exec(db, script[..n]), id, streams)
  }

  lemma {:induction false} ScriptContinues(db: Db, script: seq<Statement>, n: nat, streams: map<nat, Stream>)
    requires Safe(db, script, streams) && n <= |script|
    ensures Continues(db, Exec(db, script[..n]))
    ensures forall id :: IsComplete(Exec(db, script[..n]), id) ==>
              IsComplete(db, id) || exists m: nat :: m < n && Completes(db, script, m, id, streams)
  {
    hide Inv, Accepted, Apply, Proper, Continues, Exec;
    assert script[..0] == [];
    ExecNothing(db);
    if n == 0 {
      SameContinues(db);
    } else {
      ScriptContinues(db, script, n - 1, streams);
      var before, s := Exec(db, script[..n - 1]), script[n - 1];
      assert SafeAt(db, script, n - 1, streams);
      assert script[..n] == script[..n - 1] + [s];
      ExecSnoc(db, script[..n - 1], s);
      StatementContinues(before, s, streams);
      ContinuesOn(db, before, Apply(before, s));
      forall id | IsComplete(Exec(db, script[..n]), id) && !IsComplete(db, id)
        ensures exists m: nat :: m < n && Completes(db, script, m, id, streams)
      {
        if !IsComplete(before, id) {
          OnlyWhole(before, id, streams);
          assert Completes(db, script, n - 1, id, streams);
        } else {
          var m: nat :| m < n - 1 && Completes(db, script, m, id, streams);
        }
      }
    }
  }

  lemma SameContinues(db: Db)
    ensures Continues(db, db)
  {
  }

  lemma OnlyWhole(db: Db, id: nat, streams: map<nat, Stream>)
    requires Proper(db, MarkComplete(id), streams)
    ensures Whole(db, id, streams)
  {
  }

  // ---- Any number of attempts and crashes ----

  function Cut(script: seq<Statement>, e: Event): (n: nat)
    ensures n <= |script|
  {
    if e.commits < |script| then e.commits else |script|
  }

  ghost function ScriptOf(events: seq<Event>, k: nat, streams: map<nat, Stream>): seq<Statement>
    requires KnownEvents(events, streams) && k < |events|
  {
    AttemptScript(History(events[..k], streams), events[k].config, streams[events[k].config])
  }

  lemma AttemptContinues(db: Db, e: Event, streams: map<nat, Stream>)
    requires Inv(db, streams) && e.config in streams
    ensures var script := AttemptScript(db, e.config, streams[e.config]);
            && Continues(db, After(db, e, streams))
            && forall id :: IsComplete(After(db, e, streams), id) ==>
                 IsComplete(db, id) || exists m: nat :: m < Cut(script, e) && Completes(db, script, m, id, streams)
  {
    hide Inv, AttemptScript, Exec, Completes, Safe;
    AttemptSafe(db, e.config, streams);
    var script := AttemptScript(db, e.config, streams[e.config]);
    ScriptContinues(db, script, Cut(script, e), streams);
    assert script[..|script|] == script;
    var stopped := Exec(db, script[..Cut(script, e)]);
    assert After(db, e, streams).manifest == stopped.manifest;
  }

  /** What has ended stays as it ended, through every later attempt and crash. */
  lemma {:induction false} EndedStays(events: seq<Event>, streams: map<nat, Stream>, k: nat)
    requires KnownEvents(events, streams) && k <= |events|
    ensures Continues(History(events[..k], streams), History(events, streams))
  {
    hide Inv, Continues, After;
    if k == |events| {
      assert events[..k] == events;
      SameContinues(History(events, streams));
    } else {
      var m := |events| - 1;
      assert events[..m][..k] == events[..k];
      EndedStays(events[..m], streams, k);
      AlwaysInv(events[..m], streams);
      AttemptContinues(History(events[..m], streams), events[m], streams);
      ContinuesOn(History(events[..k], streams), History(events[..m], streams), History(events, streams));
    }
  }

  // Some attempt committed the completion while the table held the whole stream.
  ghost predicate CompletedBy(events: seq<Event>, streams: map<nat, Stream>, k: nat, m: nat, id: nat)
    requires KnownEvents(events, streams)
  {
    && k < |events| && m < Cut(ScriptOf(events, k, streams), events[k])
    && Completes(History(events[..k], streams), ScriptOf(events, k, streams), m, id, streams)
  }

  /** A run is complete only if some attempt marked it so when the table held its
      whole stream. */
  lemma {:induction false} CompleteMeansWhole(events: seq<Event>, streams: map<nat, Stream>, id: nat)
    requires KnownEvents(events, streams) && IsComplete(History(events, streams), id)
    ensures exists k: nat, m: nat :: CompletedBy(events, streams, k, m, id)
  {
    hide Inv, After, Completes, AttemptScript;
    if events != [] {
      var n := |events| - 1;
      var before := events[..n];
      AlwaysInv(before, streams);
      AttemptContinues(History(before, streams), events[n], streams);
      if IsComplete(History(before, streams), id) {
        CompleteMeansWhole(before, streams, id);
        var k: nat, m: nat :| CompletedBy(before, streams, k, m, id);
        assert before[..k] == events[..k] && before[k] == events[k];
        assert CompletedBy(events, streams, k, m, id);
      } else {
        var m: nat :| m < Cut(ScriptOf(events, n, streams), events[n]) &&
                      Completes(History(before, streams), ScriptOf(events, n, streams), m, id, streams);
        assert CompletedBy(events, streams, n, m, id);
      }
    }
  }

  // ---- What a pump does to the statuses ----

  // Runs found running are closed with a status; the others keep theirs.
  function Closed(m: map<nat, Manifest>, status: Status): (r: map<nat, Manifest>)
    ensures r.Keys == m.Keys
    ensures forall id :: id in m ==> r[id] == if m[id].status == Running then Manifest(m[id].config, status) else m[id]
  {
    map id | id in m :: if m[id].status == Running then Manifest(m[id].config, status) else m[id]
  }

  lemma {:induction false} SpansKeepManifest(db: Db, spans: Stream, id: nat, k: nat)
    ensures Exec(db, SpanScript(spans, id, k)).manifest == db.manifest
    decreases |spans| - k
  {
    hide Exec;
    if k >= |spans| {
      ExecNothing(db);
    } else {
      var copy := CopySpan(SpanRows(spans[k], k, |StreamRows(spans, k)|));
      var record := RecordSpan(id, k, Entry(|spans[k]|, Some(spans[k])));
      ExecConcat(db, [copy, record], SpanScript(spans, id, k + 1));
      TwoSteps(db, copy, record);
      SpansKeepManifest(Exec(db, [copy, record]), spans, id, k + 1);
    }
  }

  lemma TwoSteps(db: Db, s: Statement, t: Statement)
    ensures Exec(db, [s, t]) == Apply(Apply(db, s), t)
  {
    ExecNothing(db);
    ExecSnoc(db, [], s);
    ExecSnoc(db, [s], t);
    assert [] + [s] == [s] && [s] + [t] == [s, t];
  }

  lemma FreshManifest(db: Db, config: nat, spans: Stream)
    requires KnownIds(db)
    ensures Exec(db, FreshScript(db, config, spans)).manifest ==
              Closed(db.manifest, Superseded)[db.nextId := Manifest(config, Running)]
  {
    hide Exec;
    var head := [SupersedeRunning, PruneDeadSpans, InsertRun(config), DropTable, CreateTable];
    ExecConcat(db, head, SpanScript(spans, db.nextId, 0));
    SpansKeepManifest(Exec(db, head), spans, db.nextId, 0);
    HeadManifest(db, config);
  }

  lemma HeadManifest(db: Db, config: nat)
    ensures Exec(db, [SupersedeRunning, PruneDeadSpans, InsertRun(config), DropTable, CreateTable]).manifest ==
              Closed(db.manifest, Superseded)[db.nextId := Manifest(config, Running)]
  {
    hide Exec;
    var p2 := [SupersedeRunning, PruneDeadSpans];
    TwoSteps(db, SupersedeRunning, PruneDeadSpans);
    ExecSnoc(db, p2, InsertRun(config));
    ExecSnoc(db, p2 + [InsertRun(config)], DropTable);
    ExecSnoc(db, p2 + [InsertRun(config)] + [DropTable], CreateTable);
    assert p2 + [InsertRun(config)] + [DropTable] + [CreateTable] ==
           [SupersedeRunning, PruneDeadSpans, InsertRun(config), DropTable, CreateTable];
    assert Apply(db, SupersedeRunning).manifest == Closed(db.manifest, Superseded);
  }

  lemma TrimKeeps(db: Db, plan: ResumePlan)
    ensures var d := Exec(db, TrimScript(db, plan));
            d.manifest == db.manifest && d.nextId == db.nextId && d.journal == db.journal
  {
    ExecNothing(db);
    ExecSnoc(db, [], DeleteTail(plan.rows));
    assert [] + [DeleteTail(plan.rows)] == [DeleteTail(plan.rows)];
  }

  /** A run that is resumed keeps every status. One that is found and cannot be
      resumed ends as failed, and any fresh start supersedes whatever else was
      running and begins the new run; nothing else changes. */
  lemma PumpStatuses(db: Db, config: nat, streams: map<nat, Stream>)
    requires Inv(db, streams) && config in streams
    ensures var after := Exec(db, PumpScript(db, config, streams[config])).manifest;
            match FindResumable(db, config)
            case None => after == Closed(db.manifest, Superseded)[db.nextId := Manifest(config, Running)]
            case Some(plan) =>
              plan.id in db.manifest &&
              after == if Resumes(db, plan) then db.manifest
                       else Closed(db.manifest[plan.id := Manifest(config, Failed)], Superseded)[db.nextId := Manifest(config, Running)]
  {
    hide Exec, FindResumable, Resumes, Inv, FreshScript, SpanScript, TrimScript;
    var spans := streams[config];
    IdsKnown(db, streams);
    match FindResumable(db, config)
    case None => FreshManifest(db, config, spans);
    case Some(plan) =>
      FoundPlan(db, config, streams);
      TrimKeeps(db, plan);
      var trim := TrimScript(db, plan);
      var d := Exec(db, trim);
      if Resumes(db, plan) {
        ExecConcat(db, trim, SpanScript(spans, plan.id, |plan.spans|));
        SpansKeepManifest(d, spans, plan.id, |plan.spans|);
      } else {
        var given := [MarkFailed(plan.id), PruneSpans(plan.id)];
        ExecConcat(db, trim, GiveUpScript(db, plan, config, spans));
        ExecConcat(d, given, FreshScript(db, config, spans));
        TwoSteps(d, MarkFailed(plan.id), PruneSpans(plan.id));
        GivenUp(d, plan.id, config);
        SameFresh(db, Exec(d, given), config, spans);
        FreshManifest(Exec(d, given), config, spans);
      }
  }

  lemma IdsKnown(db: Db, streams: map<nat, Stream>)
    requires Inv(db, streams)
    ensures KnownIds(db)
  {
  }

  lemma GivenUp(d: Db, id: nat, config: nat)
    requires KnownIds(d) && IsRunning(d, id) && d.manifest[id].config == config
    ensures var given := Apply(Apply(d, MarkFailed(id)), PruneSpans(id));
            && KnownIds(given) && given.nextId == d.nextId && id !in given.journal
            && given.manifest == d.manifest[id := Manifest(config, Failed)]
  {
  }

  lemma SameFresh(db: Db, d: Db, config: nat, spans: Stream)
    requires db.nextId == d.nextId
    ensures FreshScript(db, config, spans) == FreshScript(d, config, spans)
  {
  }

  /** The run that was given up is failed and keeps no journal; every other run
      that was running is superseded. */
  lemma GivenUpExactly(db: Db, config: nat, streams: map<nat, Stream>, id: nat)
    requires Inv(db, streams) && config in streams && FindResumable(db, config).Some?
    requires !Resumes(db, FindResumable(db, config).value) && id in db.manifest
    ensures var after := Exec(db, PumpScript(db, config, streams[config]));
            && id in after.manifest && after.manifest[id].config == db.manifest[id].config
            && after.manifest[id].status ==
                 (if id == FindResumable(db, config).value.id then Failed
                  else if IsRunning(db, id) then Superseded
                  else db.manifest[id].status)
            && (id == FindResumable(db, config).value.id ==> id !in after.journal)
  {
    hide Inv, FindResumable, Resumes, Exec, PumpScript, AtSpan;
    PumpStatuses(db, config, streams);
    PumpSafe(db, config, streams);
    FoundPlan(db, config, streams);
    IdsKnown(db, streams);
    OnlyOwnJournal(Exec(db, PumpScript(db, config, streams[config])), db.nextId, config, streams[config]);
  }

  lemma OnlyOwnJournal(db: Db, id: nat, config: nat, spans: Stream)
    requires AtSpan(db, id, config, spans, |spans|)
    ensures forall j :: j in db.journal ==> j == id
  {
  }

  // ---- Whether a run is taken up ----

  // An interrupted run of the configuration with rows in its journal.
  ghost predicate LeftBehind(db: Db, config: nat, id: nat) {
    && IsRunning(db, id) && db.manifest[id].config == config
    && exists k :: k in SpansOf(db, id) && SpansOf(db, id)[k].rows > 0
  }

  lemma {:induction false} TotalPositive(entries: seq<Entry>)
    ensures Total(entries) > 0 <==> exists k :: 0 <= k < |entries| && entries[k].rows > 0
  {
    if entries != [] {
      var m := |entries| - 1;
      TotalPositive(entries[..m]);
      if k :| 0 <= k < |entries| && entries[k].rows > 0 {
        assert k < m ==> entries[..m][k].rows > 0;
      }
      if k :| 0 <= k < m && entries[..m][k].rows > 0 {
        assert entries[k].rows > 0;
      }
    }
  }

  lemma JournalFound(db: Db, id: nat, spans: Stream)
    requires Durable(db, id, spans) && exists k :: k in SpansOf(db, id) && SpansOf(db, id)[k].rows > 0
    ensures var k := |SpansOf(db, id)|;
            k <= |spans| && Contiguous(SpansOf(db, id)) == Some(EntriesOf(spans, k)) && Total(EntriesOf(spans, k)) > 0
  {
    hide StreamRows, JournalOf;
    var k := |SpansOf(db, id)|;
    var j :| j in SpansOf(db, id) && SpansOf(db, id)[j].rows > 0;
    assert SpansOf(db, id) != map[];
    JournalReads(spans, k);
    assert JournalOf(spans, k)[j] == Entry(|spans[j]|, Some(spans[j]));
    assert EntriesOf(spans, k)[j].rows > 0;
    TotalPositive(EntriesOf(spans, k));
  }

  /** A run is found exactly when one of the configuration was left running with
      committed rows. */
  lemma FoundExactlyWhen(db: Db, config: nat, streams: map<nat, Stream>)
    requires Inv(db, streams) && config in streams
    ensures FindResumable(db, config).Some? <==> exists id :: LeftBehind(db, config, id)
  {
    hide StreamRows, JournalOf, Durable;
    if id: nat :| LeftBehind(db, config, id) {
      JournalFound(db, id, streams[config]);
      assert RunningWith(db, config) == {id};
      forall m: nat | IsMax(RunningWith(db, config), m) ensures m == id {
      }
    }
    if FindResumable(db, config).Some? {
      var plan := FindResumable(db, config).value;
      FoundPlan(db, config, streams);
      TotalPositive(plan.spans);
      var k :| 0 <= k < |plan.spans| && plan.spans[k].rows > 0;
      assert k in JournalOf(streams[config], |plan.spans|);
      assert SpansOf(db, plan.id)[k].rows > 0;
      assert LeftBehind(db, config, plan.id);
    }
  }
}
