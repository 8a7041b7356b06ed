/** Safety of the crash and resume protocol over every prefix of every run. */
module RunSafety {
  import opened Words
  import opened RunProtocol

  // ---- Rows 1..n ----

  ghost predicate Numbered(rows: seq<Row>) {
    forall i :: 0 <= i < |rows| ==> rows[i].rowSeq == i + 1
  }

  lemma {:induction false} NumberedFacts(rows: seq<Row>)
    requires Numbered(rows)
    ensures MaxSeq(rows) == |rows| == |Seqs(rows)|
    ensures forall x :: x in Seqs(rows) ==> x <= |rows|
  {
    if rows != [] {
      var m := |rows| - 1;
      NumberedFacts(rows[..m]);
      assert rows == rows[..m] + [rows[m]];
      assert Seqs(rows) == Seqs(rows[..m]) + {m + 1};
    }
  }

  lemma {:induction false} KeepUpToAppend(s: seq<Row>, t: seq<Row>, keep: nat)
    ensures KeepUpTo(s + t, keep) == KeepUpTo(s, keep) + KeepUpTo(t, keep)
  {
    hide KeepUpTo;
    if s == [] {
      assert s + t == t;
      KeepsAll(s, keep);
    } else {
      KeepUpToAppend(s[1..], t, keep);
      assert s + t == [s[0]] + (s[1..] + t) && s == [s[0]] + s[1..];
      KeepUpToCons(s[0], s[1..] + t, keep);
      KeepUpToCons(s[0], s[1..], keep);
    }
  }

  lemma KeepUpToCons(r: Row, rows: seq<Row>, keep: nat)
    ensures KeepUpTo([r] + rows, keep) == if r.rowSeq <= keep then [r] + KeepUpTo(rows, keep) else KeepUpTo(rows, keep)
  {
    assert ([r] + rows)[1..] == rows;
  }

  lemma {:induction false} KeepsAll(rows: seq<Row>, keep: nat)
    requires forall i :: 0 <= i < |rows| ==> rows[i].rowSeq <= keep
    ensures KeepUpTo(rows, keep) == rows
  {
    if rows != [] {
      KeepsAll(rows[1..], keep);
      assert rows == [rows[0]] + rows[1..];
    }
  }

  lemma {:induction false} KeepsNone(rows: seq<Row>, keep: nat)
    requires forall i :: 0 <= i < |rows| ==> rows[i].rowSeq > keep
    ensures KeepUpTo(rows, keep) == []
  {
    if rows != [] {
      KeepsNone(rows[1..], keep);
    }
  }

  lemma StreamIsNumbered(spans: Stream, k: nat)
    requires k <= |spans|
    ensures Numbered(StreamRows(spans, k))
  {
    forall i | 0 <= i < |StreamRows(spans, k)| ensures StreamRows(spans, k)[i].rowSeq == i + 1 {
      StreamRowsNumbered(spans, k, i);
    }
  }

  // Deleting past the committed count removes exactly an uncommitted span.
  lemma TailDeleted(spans: Stream, k: nat)
    requires k <= |spans|
    ensures KeepUpTo(StreamRows(spans, k), |StreamRows(spans, k)|) == StreamRows(spans, k)
    ensures k < |spans| ==> KeepUpTo(StreamRows(spans, k + 1), |StreamRows(spans, k)|) == StreamRows(spans, k)
  {
    var rows := StreamRows(spans, k);
    StreamIsNumbered(spans, k);
    KeepsAll(rows, |rows|);
    if k < |spans| {
      var more := SpanRows(spans[k], k, |rows|);
      KeepsNone(more, |rows|);
      KeepUpToAppend(rows, more, |rows|);
    }
  }

  // ---- What the checks accept ----

  ghost predicate NoEmptySpan(spans: Stream, k: nat)
    requires k <= |spans|
  {
    forall i :: 0 <= i < k ==> spans[i] != []
  }

  function EntriesOf(spans: Stream, k: nat): (e: seq<Entry>)
    requires k <= |spans|
    ensures |e| == k && forall i :: 0 <= i < k ==> e[i] == Entry(|spans[i]|, Some(spans[i]))
  {
    seq(k, i requires 0 <= i < k => Entry(|spans[i]|, Some(spans[i])))
  }

  lemma {:induction false} TotalIsRows(spans: Stream, k: nat)
    requires k <= |spans|
    ensures Total(EntriesOf(spans, k)) == |StreamRows(spans, k)|
  {
    if k > 0 {
      TotalIsRows(spans, k - 1);
      assert EntriesOf(spans, k)[..k - 1] == EntriesOf(spans, k - 1);
    }
  }

  lemma {:induction false} CountSpanAppend(s: seq<Row>, t: seq<Row>, span: nat)
    ensures CountSpan(s + t, span) == CountSpan(s, span) + CountSpan(t, span)
  {
    if t == [] {
      assert s + t == s;
    } else {
      CountSpanAppend(s, t[..|t| - 1], span);
      assert (s + t)[..|s + t| - 1] == s + t[..|t| - 1];
    }
  }

  lemma {:induction false} CountOneSpan(rows: seq<Row>, tag: nat, span: nat)
    requires forall i :: 0 <= i < |rows| ==> rows[i].span == tag
    ensures CountSpan(rows, span) == if span == tag then |rows| else 0
  {
    if rows != [] {
      CountOneSpan(rows[..|rows| - 1], tag, span);
    }
  }

  lemma {:induction false} StreamCounts(spans: Stream, k: nat, span: nat)
    requires k <= |spans|
    ensures CountSpan(StreamRows(spans, k), span) == if span < k then |spans[span]| else 0
  {
    hide CountSpan;
    if k == 0 {
      NoCount(span);
    } else {
      var before := StreamRows(spans, k - 1);
      StreamCounts(spans, k - 1, span);
      CountSpanAppend(before, SpanRows(spans[k - 1], k - 1, |before|), span);
      CountOneSpan(SpanRows(spans[k - 1], k - 1, |before|), k - 1, span);
    }
  }

  lemma NoCount(span: nat)
    ensures CountSpan([], span) == 0
  {
  }

  lemma {:induction false} CountedTagAppears(rows: seq<Row>, span: nat)
    ensures CountSpan(rows, span) > 0 <==> span in Tags(rows)
  {
    if rows != [] {
      var m := |rows| - 1;
      CountedTagAppears(rows[..m], span);
      assert rows == rows[..m] + [rows[m]];
      assert Tags(rows) == Tags(rows[..m]) + {rows[m].span};
    }
  }

  // The per-span counts equal the journal's exactly when no span was empty.
  lemma ProfileMatches(spans: Stream, k: nat)
    requires k <= |spans|
    ensures Profile(StreamRows(spans, k)) == Expected(EntriesOf(spans, k)) <==> NoEmptySpan(spans, k)
  {
    var rows, profile, expected := StreamRows(spans, k), Profile(StreamRows(spans, k)), Expected(EntriesOf(spans, k));
    forall span: nat ensures span in profile <==> span < k && spans[span] != [] {
      CountedTagAppears(rows, span);
      StreamCounts(spans, k, span);
    }
    forall span | span in profile ensures profile[span] == |spans[span]| {
      StreamCounts(spans, k, span);
    }
    if NoEmptySpan(spans, k) {
      assert profile == expected;
    }
    if profile == expected {
      forall i | 0 <= i < k ensures spans[i] != [] {
        assert i in expected;
      }
    }
  }

  /** Once the tail is gone, an intact table passes the checks exactly when no
      committed span was empty; a table a server crash emptied never does. */
  lemma ChecksAccept(spans: Stream, k: nat, id: nat)
    requires k <= |spans| && |StreamRows(spans, k)| > 0
    ensures var plan := ResumePlan(id, EntriesOf(spans, k), |StreamRows(spans, k)|);
            && (MatchesPlan(StreamRows(spans, k), plan) <==> NoEmptySpan(spans, k))
            && !MatchesPlan([], plan)
  {
    StreamIsNumbered(spans, k);
    NumberedFacts(StreamRows(spans, k));
    ProfileMatches(spans, k);
  }

  /** Whatever table passes the checks holds each number from 1 to the journal's
      count exactly once, and each span as often as the journal says. */
  lemma MatchedIsNumbered(rows: seq<Row>, plan: ResumePlan)
    requires MatchesPlan(rows, plan) && forall i :: 0 <= i < |rows| ==> rows[i].rowSeq > 0
    ensures |rows| == plan.rows && forall i, j :: 0 <= i < j < |rows| ==> rows[i].rowSeq != rows[j].rowSeq
    ensures forall i :: 0 <= i < |rows| ==> 1 <= rows[i].rowSeq <= plan.rows
    ensures forall k: nat :: k < |plan.spans| ==> CountSpan(rows, k) == plan.spans[k].rows
  {
    AllDifferent(rows);
    forall i | 0 <= i < |rows| ensures rows[i].rowSeq <= MaxSeq(rows) {
      MaxSeqBounds(rows, i);
    }
    forall k: nat | k < |plan.spans| ensures CountSpan(rows, k) == plan.spans[k].rows {
      assert k in Profile(rows) && Profile(rows)[k] == Expected(plan.spans)[k];
    }
  }

  lemma {:induction false} MaxSeqBounds(rows: seq<Row>, i: nat)
    requires i < |rows|
    ensures rows[i].rowSeq <= MaxSeq(rows)
  {
    if i < |rows| - 1 {
      MaxSeqBounds(rows[..|rows| - 1], i);
    }
  }

  lemma SeqsSnoc(rows: seq<Row>, r: Row)
    ensures Seqs(rows + [r]) == Seqs(rows) + {r.rowSeq}
    ensures forall i :: 0 <= i < |rows| ==> rows[i].rowSeq in Seqs(rows)
  {
    forall i | 0 <= i < |rows| ensures rows[i].rowSeq in Seqs(rows) {
      assert rows[i] in rows;
    }
    forall x ensures x in Seqs(rows + [r]) <==> x in Seqs(rows) + {r.rowSeq} {
      assert r in rows + [r];
    }
  }

  // As many numbers as rows means no number twice.
  lemma {:induction false} AllDifferent(rows: seq<Row>)
    ensures |Seqs(rows)| <= |rows|
    ensures |Seqs(rows)| == |rows| ==> forall i, j :: 0 <= i < j < |rows| ==> rows[i].rowSeq != rows[j].rowSeq
  {
    if rows == [] {
      assert Seqs(rows) == {};
    } else {
      hide Seqs;
      var before, r := rows[..|rows| - 1], rows[|rows| - 1];
      assert rows == before + [r];
      AllDifferent(before);
      SeqsSnoc(before, r);
    }
  }

  // ---- Every prefix of a script ----

  ghost predicate SafeAt(db: Db, script: seq<Statement>, n: nat, streams: map<nat, Stream>)
    requires n <= |script|
  {
    && Inv(Exec(db, script[..n]), streams)
    && (n < |script| ==> Accepted(Exec(db, script[..n]), script[n]) && Proper(Exec(db, script[..n]), script[n], streams))
  }

  // A run ends only from running, completes only with its whole stream in the
  // table, and starts under an id never used.
  ghost predicate Proper(db: Db, s: Statement, streams: map<nat, Stream>) {
    match s
    case MarkFailed(id) => IsRunning(db, id)
    case MarkComplete(id) => IsRunning(db, id) && Whole(db, id, streams)
    case InsertRun(_) => db.nextId !in db.manifest
    case _ => true
  }

  ghost predicate Whole(db: Db, id: nat, streams: map<nat, Stream>) {
    && id in db.manifest && db.manifest[id].config in streams
    && var spans := streams[db.manifest[id].config]; db.table == Some(StreamRows(spans, |spans|))
  }

  // A crash after any number of commits leaves the invariant, and no statement
  // is refused.
  ghost predicate Safe(db: Db, script: seq<Statement>, streams: map<nat, Stream>) {
    forall n :: 0 <= n <= |script| ==> SafeAt(db, script, n, streams)
  }

  lemma SafeEmpty(db: Db, streams: map<nat, Stream>)
    requires Inv(db, streams)
    ensures Safe(db, [], streams)
  {
  }

  lemma SafeSnoc(db: Db, script: seq<Statement>, s: Statement, streams: map<nat, Stream>)
    requires Safe(db, script, streams) && Accepted(Exec(db, script), s) && Proper(Exec(db, script), s, streams)
    requires Inv(Apply(Exec(db, script), s), streams)
    ensures Safe(db, script + [s], streams)
  {
    hide Inv, Accepted, Apply, Proper;
    var longer := script + [s];
    ExecSnoc(db, script, s);
    assert longer[..|script|] == script && longer[..|longer|] == longer;
    forall n | 0 <= n <= |longer| ensures SafeAt(db, longer, n, streams) {
      if n <= |script| {
        assert SafeAt(db, script, n, streams);
        assert longer[..n] == script[..n];
      }
    }
  }

  lemma SafeConcat(db: Db, s: seq<Statement>, t: seq<Statement>, streams: map<nat, Stream>)
    requires Safe(db, s, streams) && Safe(Exec(db, s), t, streams)
    ensures Safe(db, s + t, streams)
  {
    hide Inv, Accepted, Apply, Proper;
    forall n | 0 <= n <= |s + t| ensures SafeAt(db, s + t, n, streams) {
      if n < |s| {
        assert SafeAt(db, s, n, streams);
        assert (s + t)[..n] == s[..n];
      } else {
        assert SafeAt(Exec(db, s), t, n - |s|, streams);
        ExecConcat(db, s, t[..n - |s|]);
        assert (s + t)[..n] == s + t[..n - |s|];
      }
    }
  }

  // ---- The running phase ----

  // Run id is the one running, its journal has the first k spans and the table
  // the first t.
  ghost predicate Phase(db: Db, id: nat, config: nat, spans: Stream, k: nat, t: nat) {
    && k <= t <= |spans| && KnownIds(db)
    && id in db.manifest && db.manifest[id] == Manifest(config, Running)
    && (forall j :: IsRunning(db, j) ==> j == id)
    && SpansOf(db, id) == JournalOf(spans, k) && (forall j :: j in db.journal ==> j == id)
    && db.table == Some(StreamRows(spans, t))
  }

  /** Journal and table agree on spans 0..k-1. */
  ghost predicate AtSpan(db: Db, id: nat, config: nat, spans: Stream, k: nat) {
    Phase(db, id, config, spans, k, k)
  }

  lemma PhaseInv(db: Db, id: nat, config: nat, spans: Stream, k: nat, t: nat, streams: map<nat, Stream>)
    requires Phase(db, id, config, spans, k, t) && t <= k + 1 && config in streams && streams[config] == spans
    ensures Inv(db, streams)
  {
    hide StreamRows, JournalOf;
  }

  lemma AtSpanInv(db: Db, id: nat, config: nat, spans: Stream, k: nat, streams: map<nat, Stream>)
    requires AtSpan(db, id, config, spans, k) && config in streams && streams[config] == spans
    ensures Inv(db, streams)
  {
    PhaseInv(db, id, config, spans, k, k, streams);
  }

  lemma NextRows(spans: Stream, k: nat)
    requires k < |spans|
    ensures StreamRows(spans, k + 1) == StreamRows(spans, k) + SpanRows(spans[k], k, |StreamRows(spans, k)|)
  {
  }

  lemma CopyPhase(db: Db, id: nat, config: nat, spans: Stream, k: nat)
    requires Phase(db, id, config, spans, k, k) && k < |spans|
    ensures var copy := CopySpan(SpanRows(spans[k], k, |StreamRows(spans, k)|));
            Accepted(db, copy) && Phase(Apply(db, copy), id, config, spans, k, k + 1)
  {
    hide JournalOf, StreamRows, SpanRows;
    var copied := Apply(db, CopySpan(SpanRows(spans[k], k, |StreamRows(spans, k)|)));
    NextRows(spans, k);
    assert forall j :: IsRunning(copied, j) ==> IsRunning(db, j);
    assert SpansOf(copied, id) == SpansOf(db, id);
  }

  lemma RecordPhase(db: Db, id: nat, config: nat, spans: Stream, k: nat)
    requires Phase(db, id, config, spans, k, k + 1)
    ensures var record := RecordSpan(id, k, Entry(|spans[k]|, Some(spans[k])));
            Accepted(db, record) && Phase(Apply(db, record), id, config, spans, k + 1, k + 1)
  {
    hide StreamRows;
    var recorded := Apply(db, RecordSpan(id, k, Entry(|spans[k]|, Some(spans[k]))));
    assert forall j :: IsRunning(recorded, j) ==> IsRunning(db, j);
    assert SpansOf(recorded, id) == JournalOf(spans, k + 1);
  }

  lemma CopyStep(db: Db, id: nat, config: nat, spans: Stream, k: nat, streams: map<nat, Stream>)
    requires AtSpan(db, id, config, spans, k) && k < |spans| && config in streams && streams[config] == spans
    ensures var copy := CopySpan(SpanRows(spans[k], k, |StreamRows(spans, k)|));
            && Accepted(db, copy) && Inv(Apply(db, copy), streams)
            && var record := RecordSpan(id, k, Entry(|spans[k]|, Some(spans[k])));
            && Accepted(Apply(db, copy), record)
            && AtSpan(Apply(Apply(db, copy), record), id, config, spans, k + 1)
  {
    hide Phase, Inv, Accepted, Apply, StreamRows;
    CopyPhase(db, id, config, spans, k);
    var copied := Apply(db, CopySpan(SpanRows(spans[k], k, |StreamRows(spans, k)|)));
    PhaseInv(copied, id, config, spans, k, k + 1, streams);
    RecordPhase(copied, id, config, spans, k);
  }

  lemma {:induction false} SpansSafe(db: Db, id: nat, config: nat, spans: Stream, k: nat, streams: map<nat, Stream>)
    requires AtSpan(db, id, config, spans, k) && config in streams && streams[config] == spans
    ensures Safe(db, SpanScript(spans, id, k), streams)
    ensures AtSpan(Exec(db, SpanScript(spans, id, k)), id, config, spans, |spans|)
    decreases |spans| - k
  {
    hide Inv, Accepted, Apply, AtSpan;
    WithinStream(db, id, config, spans, k);
    AtSpanInv(db, id, config, spans, k, streams);
    if k == |spans| {
      SafeEmpty(db, streams);
    } else {
      var copy := CopySpan(SpanRows(spans[k], k, |StreamRows(spans, k)|));
      var record := RecordSpan(id, k, Entry(|spans[k]|, Some(spans[k])));
      CopyStep(db, id, config, spans, k, streams);
      SafeEmpty(db, streams);
      SafeSnoc(db, [], copy, streams);
      ExecSnoc(db, [], copy);
      AtSpanInv(Apply(Apply(db, copy), record), id, config, spans, k + 1, streams);
      SafeSnoc(db, [] + [copy], record, streams);
      ExecSnoc(db, [] + [copy], record);
      assert [] + [copy] + [record] == [copy, record];
      SpansSafe(Exec(db, [copy, record]), id, config, spans, k + 1, streams);
      SafeConcat(db, [copy, record], SpanScript(spans, id, k + 1), streams);
      ExecConcat(db, [copy, record], SpanScript(spans, id, k + 1));
    }
  }

  lemma WithinStream(db: Db, id: nat, config: nat, spans: Stream, k: nat)
    requires AtSpan(db, id, config, spans, k)
    ensures k <= |spans|
  {
  }

  // ---- A fresh run ----

  lemma FreshSteps(db: Db, config: nat, streams: map<nat, Stream>)
    requires Inv(db, streams) && config in streams
    ensures var d1 := Apply(db, SupersedeRunning);
            var d2 := Apply(d1, PruneDeadSpans);
            var d3 := Apply(d2, InsertRun(config));
            var d4 := Apply(d3, DropTable);
            var d5 := Apply(d4, CreateTable);
            && Inv(d1, streams) && Inv(d2, streams) && Inv(d3, streams) && Inv(d4, streams) && Inv(d5, streams)
            && Accepted(d4, CreateTable) && Proper(d2, InsertRun(config), streams)
            && AtSpan(d5, db.nextId, config, streams[config], 0)
  {
    hide StreamRows, Durable;
    var d1 := Apply(db, SupersedeRunning);
    assert forall j :: !IsRunning(d1, j);
    NothingRunning(d1, streams);
    var d2 := Apply(d1, PruneDeadSpans);
    assert d2.journal == map[];
    assert forall j :: IsRunning(d2, j) ==> IsRunning(d1, j);
    NothingRunning(d2, streams);
    var d3 := Apply(d2, InsertRun(config));
    OnlyEmptyRun(d3, db.nextId, config, streams);
    OnlyEmptyRun(Apply(d3, DropTable), db.nextId, config, streams);
    var d5 := Apply(Apply(d3, DropTable), CreateTable);
    OnlyEmptyRun(d5, db.nextId, config, streams);
    NoRows(streams[config]);
    assert SpansOf(d5, db.nextId) == map[];
  }

  lemma OnlyEmptyRun(db: Db, id: nat, config: nat, streams: map<nat, Stream>)
    requires KnownIds(db) && config in streams && db.journal == map[]
    requires id in db.manifest && db.manifest[id] == Manifest(config, Running)
    requires forall j :: j in db.manifest && j != id ==> db.manifest[j].status != Running
    ensures Inv(db, streams) && forall j :: IsRunning(db, j) ==> j == id
  {
  }

  lemma NoRows(spans: Stream)
    ensures StreamRows(spans, 0) == [] && JournalOf(spans, 0) == map[]
  {
  }

  lemma FreshSafe(db: Db, config: nat, streams: map<nat, Stream>)
    requires Inv(db, streams) && config in streams
    ensures Safe(db, FreshScript(db, config, streams[config]), streams)
    ensures AtSpan(Exec(db, FreshScript(db, config, streams[config])), db.nextId, config, streams[config], |streams[config]|)
  {
    hide Inv, Apply, AtSpan, Exec, Safe, SpanScript;
    ExecNothing(db);
    FreshSteps(db, config, streams);
    var p1 := [] + [SupersedeRunning];
    var p2 := p1 + [PruneDeadSpans];
    var p3 := p2 + [InsertRun(config)];
    var p4 := p3 + [DropTable];
    var p5 := p4 + [CreateTable];
    SafeEmpty(db, streams);
    SafeSnoc(db, [], SupersedeRunning, streams);
    ExecSnoc(db, [], SupersedeRunning);
    SafeSnoc(db, p1, PruneDeadSpans, streams);
    ExecSnoc(db, p1, PruneDeadSpans);
    SafeSnoc(db, p2, InsertRun(config), streams);
    ExecSnoc(db, p2, InsertRun(config));
    SafeSnoc(db, p3, DropTable, streams);
    ExecSnoc(db, p3, DropTable);
    SafeSnoc(db, p4, CreateTable, streams);
    ExecSnoc(db, p4, CreateTable);
    var rest := SpanScript(streams[config], db.nextId, 0);
    SpansSafe(Exec(db, p5), db.nextId, config, streams[config], 0, streams);
    SafeConcat(db, p5, rest, streams);
    ExecConcat(db, p5, rest);
    assert FreshScript(db, config, streams[config]) == p5 + rest;
  }

  lemma ExecNothing(db: Db)
    ensures Exec(db, []) == db
  {
  }

  // ---- Resuming ----

  // A found plan is the running run and the journal it left.
  lemma FoundPlan(db: Db, config: nat, streams: map<nat, Stream>)
    requires Inv(db, streams) && config in streams && FindResumable(db, config).Some?
    ensures var plan := FindResumable(db, config).value;
            var spans, k := streams[config], |plan.spans|;
            && k <= |spans| && IsRunning(db, plan.id) && db.manifest[plan.id].config == config
            && SpansOf(db, plan.id) == JournalOf(spans, k)
            && plan == ResumePlan(plan.id, EntriesOf(spans, k), |StreamRows(spans, k)|) && plan.rows > 0
            && db.table.Some?
            && (db.table.value == [] || db.table.value == StreamRows(spans, k) ||
                (k < |spans| && db.table.value == StreamRows(spans, k + 1)))
  {
    hide StreamRows;
    var plan := FindResumable(db, config).value;
    var spans, k := streams[config], |plan.spans|;
    assert IsMax(RunningWith(db, config), plan.id);
    assert Durable(db, plan.id, spans);
    assert plan.spans == EntriesOf(spans, k);
    TotalIsRows(spans, k);
  }

  lemma NothingRunning(db: Db, streams: map<nat, Stream>)
    requires KnownIds(db) && forall j :: !IsRunning(db, j)
    ensures Inv(db, streams)
  {
  }

  lemma GiveUpSteps(db: Db, id: nat, streams: map<nat, Stream>)
    requires Inv(db, streams) && IsRunning(db, id)
    ensures Inv(Apply(db, MarkFailed(id)), streams)
    ensures Inv(Apply(Apply(db, MarkFailed(id)), PruneSpans(id)), streams)
    ensures Apply(Apply(db, MarkFailed(id)), PruneSpans(id)).nextId == db.nextId
  {
    hide Durable;
    var d1 := Apply(db, MarkFailed(id));
    assert forall j :: IsRunning(d1, j) ==> IsRunning(db, j) && j != id;
    NothingRunning(d1, streams);
    var d2 := Apply(d1, PruneSpans(id));
    assert forall j :: IsRunning(d2, j) ==> IsRunning(d1, j);
    NothingRunning(d2, streams);
  }

  lemma GiveUpSafe(db: Db, plan: ResumePlan, config: nat, streams: map<nat, Stream>)
    requires Inv(db, streams) && config in streams && IsRunning(db, plan.id)
    ensures var script := GiveUpScript(db, plan, config, streams[config]);
            && Safe(db, script, streams)
            && AtSpan(Exec(db, script), db.nextId, config, streams[config], |streams[config]|)
  {
    hide Inv, Apply, AtSpan, StreamRows, SpanScript;
    GiveUpSteps(db, plan.id, streams);
    SafeEmpty(db, streams);
    var p1 := [] + [MarkFailed(plan.id)];
    var p2 := p1 + [PruneSpans(plan.id)];
    SafeSnoc(db, [], MarkFailed(plan.id), streams);
    ExecSnoc(db, [], MarkFailed(plan.id));
    SafeSnoc(db, p1, PruneSpans(plan.id), streams);
    ExecSnoc(db, p1, PruneSpans(plan.id));
    var given := Exec(db, p2);
    FreshSafe(given, config, streams);
    SafeConcat(db, p2, FreshScript(given, config, streams[config]), streams);
    ExecConcat(db, p2, FreshScript(given, config, streams[config]));
    assert GiveUpScript(db, plan, config, streams[config]) == p2 + FreshScript(given, config, streams[config]);
  }

  // Trimming leaves the committed prefix, or nothing after a server crash.
  lemma Trimmed(db: Db, config: nat, streams: map<nat, Stream>)
    requires Inv(db, streams) && config in streams && FindResumable(db, config).Some?
    ensures var plan := FindResumable(db, config).value;
            var k, d := |plan.spans|, Apply(db, DeleteTail(plan.rows));
            && k <= |streams[config]| && Inv(d, streams) && IsRunning(d, plan.id)
            && (if db.table == Some([]) then d.table == Some([])
                else AtSpan(d, plan.id, config, streams[config], k))
            && (Resumes(db, plan) <==> db.table != Some([]) && NoEmptySpan(streams[config], k))
  {
    hide StreamRows, FindResumable, MatchesPlan, JournalOf;
    FoundPlan(db, config, streams);
    var plan := FindResumable(db, config).value;
    var spans, k, d := streams[config], |plan.spans|, Apply(db, DeleteTail(plan.rows));
    TailDeleted(spans, k);
    ChecksAccept(spans, k, plan.id);
    assert forall j :: IsRunning(d, j) <==> IsRunning(db, j);
    assert forall j :: SpansOf(d, j) == SpansOf(db, j);
  }

  /** An interrupted run with committed rows is taken up again exactly when no
      server crash emptied the table and none of its committed spans was empty. */
  lemma ResumesExactlyWhen(db: Db, config: nat, streams: map<nat, Stream>)
    requires Inv(db, streams) && config in streams && FindResumable(db, config).Some?
    ensures var plan := FindResumable(db, config).value;
            Resumes(db, plan) <==> db.table != Some([]) && forall i :: 0 <= i < |plan.spans| ==> plan.spans[i].rows > 0
  {
    hide StreamRows, FindResumable, MatchesPlan, JournalOf, Resumes;
    FoundPlan(db, config, streams);
    Trimmed(db, config, streams);
    var plan := FindResumable(db, config).value;
    assert plan.spans == EntriesOf(streams[config], |plan.spans|);
    forall i | 0 <= i < |plan.spans| ensures plan.spans[i].rows > 0 <==> streams[config][i] != [] {
      assert plan.spans[i] == EntriesOf(streams[config], |plan.spans|)[i];
    }
  }

  // ---- One attempt ----

  // The run an attempt works on.
  ghost function RunId(db: Db, config: nat): nat {
    match FindResumable(db, config)
    case None => db.nextId
    case Some(plan) => if Resumes(db, plan) then plan.id else db.nextId
  }

  lemma PumpSafe(db: Db, config: nat, streams: map<nat, Stream>)
    requires Inv(db, streams) && config in streams
    ensures var script := PumpScript(db, config, streams[config]);
            && Safe(db, script, streams)
            && AtSpan(Exec(db, script), RunId(db, config), config, streams[config], |streams[config]|)
  {
    hide Inv, AtSpan, StreamRows, SpanScript, FindResumable, Resumes, Apply, FreshScript, GiveUpScript;
    match FindResumable(db, config)
    case None =>
      FreshSafe(db, config, streams);
    case Some(plan) =>
      FoundPlan(db, config, streams);
      Trimmed(db, config, streams);
      var trim := [] + [DeleteTail(plan.rows)];
      SafeEmpty(db, streams);
      SafeSnoc(db, [], DeleteTail(plan.rows), streams);
      ExecSnoc(db, [], DeleteTail(plan.rows));
      var d := Exec(db, trim);
      assert trim == TrimScript(db, plan);
      var spans := streams[config];
      if Resumes(db, plan) {
        SpansSafe(d, plan.id, config, spans, |plan.spans|, streams);
        SafeConcat(db, trim, SpanScript(spans, plan.id, |plan.spans|), streams);
        ExecConcat(db, trim, SpanScript(spans, plan.id, |plan.spans|));
      } else {
        GiveUpSafe(d, plan, config, streams);
        SameGiveUp(db, plan, config, spans);
        SafeConcat(db, trim, GiveUpScript(d, plan, config, spans), streams);
        ExecConcat(db, trim, GiveUpScript(d, plan, config, spans));
      }
  }

  lemma SameGiveUp(db: Db, plan: ResumePlan, config: nat, spans: Stream)
    ensures var d := Apply(db, DeleteTail(plan.rows));
            GiveUpScript(d, plan, config, spans) == GiveUpScript(db, plan, config, spans) && d.nextId == db.nextId
  {
  }

  // ---- Finishing ----

  lemma JournalReads(spans: Stream, k: nat)
    requires k <= |spans|
    ensures Contiguous(JournalOf(spans, k)) == Some(EntriesOf(spans, k))
  {
    assert InOrder(JournalOf(spans, k), k) == EntriesOf(spans, k);
  }

  // After the last span the run is found again, provided it has any rows.
  lemma FindsItself(db: Db, id: nat, config: nat, spans: Stream)
    requires AtSpan(db, id, config, spans, |spans|)
    ensures FindResumable(db, config) ==
            if StreamRows(spans, |spans|) == [] then None
            else Some(ResumePlan(id, EntriesOf(spans, |spans|), |StreamRows(spans, |spans|)|))
  {
    hide StreamRows;
    var n := |spans|;
    assert RunningWith(db, config) == {id};
    assert IsMax({id}, id);
    forall m: nat | IsMax(RunningWith(db, config), m) ensures m == id {
    }
    var entries := EntriesOf(spans, n);
    JournalReads(spans, n);
    TotalIsRows(spans, n);
  }

  lemma CompleteSteps(db: Db, id: nat, config: nat, spans: Stream, streams: map<nat, Stream>)
    requires AtSpan(db, id, config, spans, |spans|)
    ensures var done := Apply(db, MarkComplete(id));
            var pruned := Apply(done, PruneSpans(id));
            && Inv(done, streams) && Inv(pruned, streams)
            && id in pruned.manifest && pruned.manifest[id] == Manifest(config, Complete) && pruned.table == db.table
            && pruned.journal == map[]
            && forall j :: !IsRunning(pruned, j)
  {
    hide StreamRows, JournalOf;
    var done := Apply(db, MarkComplete(id));
    assert forall j :: IsRunning(done, j) ==> IsRunning(db, j) && j != id;
    NothingRunning(done, streams);
    var pruned := Apply(done, PruneSpans(id));
    assert forall j :: IsRunning(pruned, j) ==> IsRunning(done, j);
    NothingRunning(pruned, streams);
  }

  /** What a completed attempt leaves: the table holds the stream's rows, and a
      stream with any row is marked complete, with no journal left of any run; an
      empty one stays running. */
  ghost predicate Finished(db: Db, id: nat, config: nat, spans: Stream) {
    && db.table == Some(StreamRows(spans, |spans|))
    && id in db.manifest && db.manifest[id].config == config
    && db.manifest[id].status == (if StreamRows(spans, |spans|) == [] then Running else Complete)
    && (StreamRows(spans, |spans|) != [] ==> db.journal == map[] && forall j :: !IsRunning(db, j))
  }

  lemma AttemptSafe(db: Db, config: nat, streams: map<nat, Stream>)
    requires Inv(db, streams) && config in streams
    ensures var script := AttemptScript(db, config, streams[config]);
            Safe(db, script, streams) && Finished(Exec(db, script), RunId(db, config), config, streams[config])
  {
    hide Inv, AtSpan, StreamRows, FindResumable, Resumes, Apply, PumpScript, RunId;
    var spans, pump, id := streams[config], PumpScript(db, config, streams[config]), RunId(db, config);
    PumpSafe(db, config, streams);
    var d := Exec(db, pump);
    FindsItself(d, id, config, spans);
    AtSpanFacts(d, id, config, spans);
    AtSpanInv(d, id, config, spans, |spans|, streams);
    assert Proper(d, MarkComplete(id), streams);
    var p0, p1 := [], [] + [MarkComplete(id)];
    var p2 := p1 + [PruneSpans(id)];
    SafeEmpty(d, streams);
    if StreamRows(spans, |spans|) == [] {
      SafeConcat(db, pump, p0, streams);
      ExecConcat(db, pump, p0);
    } else {
      CompleteSteps(d, id, config, spans, streams);
      SafeSnoc(d, p0, MarkComplete(id), streams);
      ExecSnoc(d, p0, MarkComplete(id));
      SafeSnoc(d, p1, PruneSpans(id), streams);
      ExecSnoc(d, p1, PruneSpans(id));
      assert p2 == FinishScript(d, config);
      assert Finished(Exec(d, p2), id, config, spans);
      SafeConcat(db, pump, p2, streams);
      ExecConcat(db, pump, p2);
    }
  }

  lemma AfterAttempt(db: Db, config: nat, streams: map<nat, Stream>)
    requires Inv(db, streams) && config in streams
    ensures var final := Exec(db, AttemptScript(db, config, streams[config]));
            Inv(final, streams) && final.table == Some(StreamRows(streams[config], |streams[config]|))
  {
    hide AttemptScript, Exec, StreamRows, Inv;
    AttemptSafe(db, config, streams);
    var script := AttemptScript(db, config, streams[config]);
    assert SafeAt(db, script, |script|, streams);
    assert script[..|script|] == script;
  }

  lemma AtSpanFacts(db: Db, id: nat, config: nat, spans: Stream)
    requires AtSpan(db, id, config, spans, |spans|)
    ensures db.table == Some(StreamRows(spans, |spans|))
    ensures id in db.manifest && db.manifest[id] == Manifest(config, Running)
  {
  }

  // ---- Any number of crashes ----

  /** One attempt that stops after some of its commits, perhaps because the
      server itself crashed. */
  datatype Event = Event(config: nat, commits: nat, serverCrash: bool)

  ghost function After(db: Db, e: Event, streams: map<nat, Stream>): Db
    requires e.config in streams
  {
    var script := AttemptScript(db, e.config, streams[e.config]);
    var stopped := Exec(db, if e.commits < |script| then script[..e.commits] else script);
    if e.serverCrash then ServerCrash(stopped) else stopped
  }

  ghost predicate KnownEvents(events: seq<Event>, streams: map<nat, Stream>) {
    forall i :: 0 <= i < |events| ==> events[i].config in streams
  }

  ghost function History(events: seq<Event>, streams: map<nat, Stream>): Db
    requires KnownEvents(events, streams)
  {
    if events == [] then EMPTY_DB else After(History(events[..|events| - 1], streams), events[|events| - 1], streams)
  }

  lemma AfterInv(db: Db, e: Event, streams: map<nat, Stream>)
    requires Inv(db, streams) && e.config in streams
    ensures Inv(After(db, e, streams), streams)
  {
    hide AttemptScript, Exec, StreamRows;
    AttemptSafe(db, e.config, streams);
    var script := AttemptScript(db, e.config, streams[e.config]);
    var n := if e.commits < |script| then e.commits else |script|;
    assert SafeAt(db, script, n, streams);
    assert script[..|script|] == script;
    CrashInv(Exec(db, script[..n]), streams);
  }

  lemma CrashInv(db: Db, streams: map<nat, Stream>)
    requires Inv(db, streams)
    ensures Inv(ServerCrash(db), streams)
  {
    hide StreamRows, JournalOf;
    var crashed := ServerCrash(db);
    assert forall j :: IsRunning(crashed, j) <==> IsRunning(db, j);
    assert forall j :: SpansOf(crashed, j) == SpansOf(db, j);
    forall id | IsRunning(crashed, id) ensures Durable(crashed, id, streams[crashed.manifest[id].config]) {
      assert Durable(db, id, streams[db.manifest[id].config]);
    }
  }

  /** Across any number of attempts and crashes, of any configurations, at most
      one run is running and its journal describes a prefix of the table. */
  lemma {:induction false} AlwaysInv(events: seq<Event>, streams: map<nat, Stream>)
    requires KnownEvents(events, streams)
    ensures Inv(History(events, streams), streams)
  {
    hide Inv, After;
    if events == [] {
      NothingRunning(EMPTY_DB, streams);
    } else {
      var k := |events| - 1;
      AlwaysInv(events[..k], streams);
      AfterInv(History(events[..k], streams), events[k], streams);
    }
  }

  // Row i of span k stands at its place in the stream, numbered from 1 and
  // under its own span, and there is nothing else.
  ghost predicate ExactRows(rows: seq<Row>, spans: Stream) {
    && |rows| == Cells(spans)
    && (forall i :: 0 <= i < |rows| ==> rows[i].rowSeq == i + 1)
    && (forall k, i :: 0 <= k < |spans| && 0 <= i < |spans[k]| ==> RowAt(rows, Cells(spans[..k]) + i) == Some(Row(Cells(spans[..k]) + i + 1, k, spans[k][i])))
  }

  function Cells(spans: Stream): nat {
    if spans == [] then 0 else Cells(spans[..|spans| - 1]) + |spans[|spans| - 1]|
  }

  lemma {:induction false} RowsOfPrefix(spans: Stream, k: nat)
    requires k <= |spans|
    ensures |StreamRows(spans, k)| == Cells(spans[..k])
  {
    if k > 0 {
      RowsOfPrefix(spans, k - 1);
      assert spans[..k][..k - 1] == spans[..k - 1];
    }
  }

  lemma StreamIsExact(spans: Stream)
    ensures ExactRows(StreamRows(spans, |spans|), spans)
  {
    hide StreamRows, Cells, RowAt;
    var n := |spans|;
    StreamIsNumbered(spans, n);
    RowsOfPrefix(spans, n);
    assert spans[..n] == spans;
    forall k, i | 0 <= k < n && 0 <= i < |spans[k]|
      ensures RowAt(StreamRows(spans, n), Cells(spans[..k]) + i) == Some(Row(Cells(spans[..k]) + i + 1, k, spans[k][i]))
    {
      RowsOfPrefix(spans, k);
      StreamHolds(spans, n, k, i);
    }
  }

  /** A run that finishes, after whatever came before, leaves each row of its
      stream exactly once, numbered from 1 in order and under its own span. */
  lemma FinishedRunIsExact(events: seq<Event>, config: nat, streams: map<nat, Stream>)
    requires KnownEvents(events, streams) && config in streams
    ensures var db := History(events, streams);
            var final := Exec(db, AttemptScript(db, config, streams[config]));
            && Finished(final, RunId(db, config), config, streams[config])
            && final.table.Some? && ExactRows(final.table.value, streams[config])
  {
    hide Inv, AttemptScript, Exec, RunId, ExactRows, StreamRows, History;
    AlwaysInv(events, streams);
    AttemptSafe(History(events, streams), config, streams);
    StreamIsExact(streams[config]);
  }

  function RowAt(rows: seq<Row>, i: nat): Option<Row> {
    if i < |rows| then Some(rows[i]) else None
  }

  lemma {:induction false} StreamHolds(spans: Stream, n: nat, k: nat, i: nat)
    requires k < n <= |spans| && i < |spans[k]|
    ensures RowAt(StreamRows(spans, n), |StreamRows(spans, k)| + i) == Some(Row(|StreamRows(spans, k)| + i + 1, k, spans[k][i]))
  {
    if k < n - 1 {
      StreamHolds(spans, n - 1, k, i);
    }
  }
}
