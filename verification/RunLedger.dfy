/** The run ledger, the table sink and the attempt that drives them, each tied
    to the statements it commits. */
module RunLedgerClasses {
  import opened Words
  import opened RunProtocol
  import RunSafety

  /** The server as the run sees it, with the statements committed so far. */
  class Database {
    var db: Db
    ghost var log: seq<Statement>

    constructor (db: Db)
      ensures this.db == db && log == []
    {
      this.db := db;
      log := [];
    }

    method Exec(s: Statement)
      modifies this
      ensures db == Apply(old(db), s) && log == old(log) + [s]
    {
      db := Apply(db, s);
      log := log + [s];
    }
  }

  // The statements since an earlier moment took its tables to the present ones.
  twostate predicate Committed(conn: Database, script: seq<Statement>)
    reads conn
  {
    conn.log == old(conn.log) + script && conn.db == Exec(old(conn.db), script)
  }

  lemma TwoStatements(db: Db, s: Statement, t: Statement)
    ensures Exec(db, [s, t]) == Apply(Apply(db, s), t)
  {
    OneStatement(db, s);
    ExecSnoc(db, [s], t);
    assert [s] + [t] == [s, t];
  }

  lemma OneStatement(db: Db, s: Statement)
    ensures Exec(db, [s]) == Apply(db, s)
  {
    assert [s][..0] == [];
  }

  class RunLedger {
    const conn: Database

    constructor (conn: Database)
      ensures this.conn == conn
    {
      this.conn := conn;
    }

    method SupersedeRunning()
      modifies conn
      ensures Committed(conn, [Statement.SupersedeRunning, PruneDeadSpans])
    {
      TwoStatements(conn.db, Statement.SupersedeRunning, PruneDeadSpans);
      conn.Exec(Statement.SupersedeRunning);
      conn.Exec(PruneDeadSpans);
    }

    method BeginRun(config: nat) returns (id: nat)
      modifies conn
      ensures Committed(conn, [InsertRun(config)]) && id == old(conn.db).nextId
    {
      OneStatement(conn.db, InsertRun(config));
      id := conn.db.nextId;
      conn.Exec(InsertRun(config));
    }

    method LatestRunning(config: nat) returns (r: Option<nat>)
      ensures r == None <==> RunningWith(conn.db, config) == {}
      ensures r.Some? ==> IsMax(RunningWith(conn.db, config), r.value)
    {
      var rest := set id | id in conn.db.manifest && IsRunning(conn.db, id) && conn.db.manifest[id].config == config;
      ghost var all := RunningWith(conn.db, config);
      assert rest == all;
      r := None;
      while rest != {}
        invariant rest <= all
        invariant r == None <==> rest == all
        invariant r.Some? ==> r.value in all && forall x :: x in all && x !in rest ==> x <= r.value
        decreases rest
      {
        var id :| id in rest;
        rest := rest - {id};
        if r == None || r.value < id {
          r := Some(id);
        }
      }
    }

    method FindResumable(config: nat) returns (plan: Option<ResumePlan>)
      ensures plan == RunProtocol.FindResumable(conn.db, config)
    {
      var latest := LatestRunning(config);
      if latest == None {
        return None;
      }
      var id := latest.value;
      UniqueMax(conn.db, config, id);
      var read := ReadJournal(SpansOf(conn.db, id));
      if read == None || Total(read.value) == 0 {
        return None;
      }
      plan := Some(ResumePlan(id, read.value, Total(read.value)));
    }

    /** The journal in span order, unless a span or a digest is missing. */
    method ReadJournal(journal: map<nat, Entry>) returns (r: Option<seq<Entry>>)
      ensures r == Contiguous(journal)
    {
      hide InOrder;
      var entries: seq<Entry> := [];
      for i := 0 to |journal|
        invariant |entries| == i
        invariant forall k: nat :: k < i ==> k in journal && journal[k].digest.Some? && entries[k] == journal[k]
      {
        if i !in journal || journal[i].digest == None {
          return None;
        }
        entries := entries + [journal[i]];
      }
      assert entries == InOrder(journal, |journal|);
      r := Some(entries);
    }

    /** Trims the uncommitted tail and says whether the table matches the plan. */
    method PrepareResume(plan: ResumePlan) returns (ok: bool)
      modifies conn
      ensures Committed(conn, TrimScript(old(conn.db), plan))
      ensures ok == Resumes(old(conn.db), plan)
    {
      if conn.db.table == None {
        return false;
      }
      OneStatement(conn.db, DeleteTail(plan.rows));
      conn.Exec(DeleteTail(plan.rows));
      ok := MatchesPlan(conn.db.table.value, plan);
    }

    method RecordSpan(id: nat, span: nat, entry: Entry)
      modifies conn
      ensures Committed(conn, [Statement.RecordSpan(id, span, entry)])
    {
      OneStatement(conn.db, Statement.RecordSpan(id, span, entry));
      conn.Exec(Statement.RecordSpan(id, span, entry));
    }

    method FinishRun(id: nat)
      modifies conn
      ensures Committed(conn, [MarkComplete(id), PruneSpans(id)])
    {
      TwoStatements(conn.db, MarkComplete(id), PruneSpans(id));
      conn.Exec(MarkComplete(id));
      conn.Exec(PruneSpans(id));
    }

    method MarkFailed(id: nat)
      modifies conn
      ensures Committed(conn, [Statement.MarkFailed(id), PruneSpans(id)])
    {
      TwoStatements(conn.db, Statement.MarkFailed(id), PruneSpans(id));
      conn.Exec(Statement.MarkFailed(id));
      conn.Exec(PruneSpans(id));
    }
  }

  lemma UniqueMax(db: Db, config: nat, id: nat)
    requires IsMax(RunningWith(db, config), id)
    ensures forall m: nat :: IsMax(RunningWith(db, config), m) ==> m == id
  {
  }

  /** Streams spans into the table, one COPY per span, numbering its rows. */
  class PostgresSink {
    const conn: Database
    var rows: nat
    var spans: nat
    var spanIndex: nat
    var copy: Option<seq<Row>>
    var finished: bool

    constructor (conn: Database, createTable: bool, startRowSeq: nat)
      modifies conn
      ensures this.conn == conn && rows == startRowSeq && spans == 0 && copy == None && !finished
      ensures Committed(conn, if createTable then [DropTable, CreateTable] else [])
    {
      this.conn := conn;
      rows, spans, spanIndex, copy, finished := startRowSeq, 0, 0, None, false;
      new;
      if createTable {
        TwoStatements(conn.db, DropTable, CreateTable);
        conn.Exec(DropTable);
        conn.Exec(CreateTable);
      }
    }

    method BeginSpan(index: nat) returns (ok: bool)
      modifies this`spanIndex, this`copy
      ensures ok == (!finished && old(copy) == None)
      ensures ok ==> spanIndex == index && copy == Some([])
      ensures !ok ==> spanIndex == old(spanIndex) && copy == old(copy)
    {
      if finished || copy.Some? {
        return false;
      }
      spanIndex := index;
      copy := Some([]);
      ok := true;
    }

    // The row number is incremented first: the first row written is number 1.
    method Append(cells: seq<Cell>) returns (ok: bool)
      modifies this`rows, this`copy
      ensures ok == old(copy).Some?
      ensures ok ==> rows == old(rows) + |cells| && copy == Some(old(copy).value + SpanRows(cells, spanIndex, old(rows)))
      ensures !ok ==> rows == old(rows) && copy == old(copy)
    {
      if copy == None {
        return false;
      }
      for i := 0 to |cells|
        invariant copy.Some? && rows == old(rows) + i
        invariant copy.value == old(copy).value + SpanRows(cells[..i], spanIndex, old(rows))
      {
        rows := rows + 1;
        copy := Some(copy.value + [Row(rows, spanIndex, cells[i])]);
        assert SpanRows(cells[..i + 1], spanIndex, old(rows)) == SpanRows(cells[..i], spanIndex, old(rows)) + [Row(rows, spanIndex, cells[i])];
      }
      assert cells[..|cells|] == cells;
      ok := true;
    }

    method EndSpan() returns (ok: bool)
      modifies this`copy, this`spans, conn
      ensures ok == old(copy).Some?
      ensures ok ==> copy == None && spans == old(spans) + 1 && Committed(conn, [CopySpan(old(copy).value)])
      ensures !ok ==> copy == None && spans == old(spans) && Committed(conn, [])
    {
      if copy == None {
        return false;
      }
      OneStatement(conn.db, CopySpan(copy.value));
      conn.Exec(CopySpan(copy.value));
      copy := None;
      spans := spans + 1;
      ok := true;
    }

    method Finish() returns (ok: bool)
      modifies this`finished
      ensures ok == (copy == None) && (ok ==> finished)
    {
      if copy.Some? {
        return false;
      }
      finished := true;
      ok := true;
    }
  }

  // ---- One attempt ----

  datatype Outcome = Streamed(id: nat) | Diverged

  // The durable rows of one committed span read back against the stream.
  predicate SpanDurable(table: seq<Row>, base: nat, cells: seq<Cell>) {
    && base + |cells| <= |table|
    && forall i: nat :: i < |cells| ==> RowDurable(table, base, cells, i)
  }

  predicate RowDurable(table: seq<Row>, base: nat, cells: seq<Cell>, i: nat)
    requires i < |cells| && base + i < |table|
  {
    table[base + i].rowSeq == base + i + 1 && table[base + i].cell == cells[i]
  }

  // A committed span as the stream regenerates it: same count, same digest, and
  // every durable row the regenerated one.
  predicate SpanVerified(table: seq<Row>, entry: Entry, cells: seq<Cell>, base: nat) {
    entry == Entry(|cells|, Some(cells)) && SpanDurable(table, base, cells)
  }

  predicate AllVerified(table: seq<Row>, entries: seq<Entry>, spans: Stream) {
    && |entries| <= |spans|
    && forall k :: 0 <= k < |entries| ==> SpanVerified(table, entries[k], spans[k], |StreamRows(spans, k)|)
  }

  predicate PrefixVerified(table: seq<Row>, plan: ResumePlan, spans: Stream) {
    AllVerified(table, plan.spans, spans)
  }

  /** A committed prefix is accepted exactly when the journal's entries are those of
      the stream, content and all, and every row of theirs in the table carries its
      own number and the stream's cell. */
  lemma VerifiedExactlyWhen(table: seq<Row>, plan: ResumePlan, spans: Stream)
    ensures PrefixVerified(table, plan, spans) <==>
              && |plan.spans| <= |spans|
              && (forall k :: 0 <= k < |plan.spans| ==>
                    plan.spans[k].rows == |spans[k]| && plan.spans[k].digest == Some(spans[k]))
              && forall k, i :: 0 <= k < |plan.spans| && 0 <= i < |spans[k]| ==>
                   HoldsCell(table, |StreamRows(spans, k)| + i, spans[k][i])
  {
    hide StreamRows;
    if PrefixVerified(table, plan, spans) {
      forall k | 0 <= k < |plan.spans| ensures plan.spans[k] == Entry(|spans[k]|, Some(spans[k])) {
        assert SpanVerified(table, plan.spans[k], spans[k], |StreamRows(spans, k)|);
      }
      forall k, i | 0 <= k < |plan.spans| && 0 <= i < |spans[k]| ensures HoldsCell(table, |StreamRows(spans, k)| + i, spans[k][i]) {
        assert SpanVerified(table, plan.spans[k], spans[k], |StreamRows(spans, k)|);
        assert RowDurable(table, |StreamRows(spans, k)|, spans[k], i);
      }
    }
    if |plan.spans| <= |spans| && forall k, i :: 0 <= k < |plan.spans| && 0 <= i < |spans[k]| ==> HoldsCell(table, |StreamRows(spans, k)| + i, spans[k][i]) {
      forall k | 0 <= k < |plan.spans| ensures SpanDurable(table, |StreamRows(spans, k)|, spans[k]) {
        EnoughRows(table, spans, k + 1);
        RowsGrow(spans, k);
        forall i: nat | i < |spans[k]| ensures RowDurable(table, |StreamRows(spans, k)|, spans[k], i) {
          assert HoldsCell(table, |StreamRows(spans, k)| + i, spans[k][i]);
        }
      }
    }
  }

  lemma {:induction false} EnoughRows(table: seq<Row>, spans: Stream, n: nat)
    requires n <= |spans|
    requires forall k, i :: 0 <= k < n && 0 <= i < |spans[k]| ==> HoldsCell(table, |StreamRows(spans, k)| + i, spans[k][i])
    ensures |StreamRows(spans, n)| <= |table|
  {
    hide StreamRows;
    if n == 0 {
      NoRowsYet(spans);
    } else {
      EnoughRows(table, spans, n - 1);
      RowsGrow(spans, n - 1);
      var last := |spans[n - 1]|;
      if last > 0 {
        assert HoldsCell(table, |StreamRows(spans, n - 1)| + (last - 1), spans[n - 1][last - 1]);
      }
    }
  }

  // Row i of the table has number i + 1 and this cell.
  predicate HoldsCell(table: seq<Row>, i: nat, cell: Cell) {
    i < |table| && table[i].rowSeq == i + 1 && table[i].cell == cell
  }

  // Verified entries add up to the rows of the stream so far.
  lemma {:induction false} VerifiedTotal(table: seq<Row>, entries: seq<Entry>, spans: Stream)
    requires AllVerified(table, entries, spans)
    ensures Total(entries) == |StreamRows(spans, |entries|)|
  {
    if entries != [] {
      var k := |entries| - 1;
      VerifiedTotal(table, entries[..k], spans);
      assert SpanVerified(table, entries[k], spans[k], |StreamRows(spans, k)|);
    }
  }

  lemma CommittedTrans(before: Db, middle: Db, after: Db, s: seq<Statement>, t: seq<Statement>)
    requires middle == Exec(before, s) && after == Exec(middle, t)
    ensures after == Exec(before, s + t)
  {
    ExecConcat(before, s, t);
  }

  class Orchestrator {
    const conn: Database

    constructor (conn: Database)
      ensures this.conn == conn
    {
      this.conn := conn;
    }

    /** Checks the committed prefix span by span; nothing is written. */
    method VerifyPrefix(plan: ResumePlan, spans: Stream) returns (ok: bool)
      requires conn.db.table.Some?
      ensures ok == PrefixVerified(conn.db.table.value, plan, spans)
    {
      hide SpanVerified, SpanRows, StreamRows;
      NoRowsYet(spans);
      var durable := 0;
      var k := 0;
      while k < |plan.spans| && k < |spans|
        invariant k <= |plan.spans| && k <= |spans| && durable == |StreamRows(spans, k)|
        invariant forall j :: 0 <= j < k ==> SpanVerified(conn.db.table.value, plan.spans[j], spans[j], |StreamRows(spans, j)|)
      {
        if !SpanVerified(conn.db.table.value, plan.spans[k], spans[k], durable) {
          return false;
        }
        RowsGrow(spans, k);
        durable := durable + |spans[k]|;
        k := k + 1;
      }
      ok := k == |plan.spans|;
    }

    method CopyAndRecord(ledger: RunLedger, sink: PostgresSink, id: nat, spans: Stream, k: nat)
      requires ledger.conn == conn == sink.conn && sink.copy == None && !sink.finished
      requires k < |spans| && sink.rows == |StreamRows(spans, k)|
      modifies conn, sink
      ensures Committed(conn, [CopySpan(SpanRows(spans[k], k, |StreamRows(spans, k)|)),
                               RecordSpan(id, k, Entry(|spans[k]|, Some(spans[k])))])
      ensures sink.rows == |StreamRows(spans, k + 1)| && sink.copy == None && !sink.finished
    {
      hide Apply;
      var ok := sink.BeginSpan(k);
      ok := sink.Append(spans[k]);
      ghost var copy, record := CopySpan(SpanRows(spans[k], k, |StreamRows(spans, k)|)), RecordSpan(id, k, Entry(|spans[k]|, Some(spans[k])));
      assert [] + SpanRows(spans[k], k, |StreamRows(spans, k)|) == SpanRows(spans[k], k, |StreamRows(spans, k)|);
      ghost var start := conn.db;
      ok := sink.EndSpan();
      ghost var middle := conn.db;
      ledger.RecordSpan(id, k, Entry(|spans[k]|, Some(spans[k])));
      CommittedTrans(start, middle, conn.db, [copy], [record]);
      assert [copy] + [record] == [copy, record];
    }

    /** Copies and records every span from first on. */
    method StreamSpans(ledger: RunLedger, sink: PostgresSink, id: nat, spans: Stream, first: nat)
      requires ledger.conn == conn == sink.conn && sink.copy == None && !sink.finished
      requires first <= |spans| && sink.rows == |StreamRows(spans, first)|
      modifies conn, sink
      ensures Committed(conn, SpanScript(spans, id, first))
      ensures sink.rows == |StreamRows(spans, |spans|)| && sink.copy == None && sink.finished
    {
      hide Apply, Exec, StreamRows, SpanRows;
      ghost var start := conn.db;
      ghost var done: seq<Statement> := [];
      NothingDone(start);
      for k := first to |spans|
        invariant sink.copy == None && !sink.finished && sink.rows == |StreamRows(spans, k)|
        invariant conn.log == old(conn.log) + done && conn.db == Exec(start, done)
        invariant done + SpanScript(spans, id, k) == SpanScript(spans, id, first)
      {
        ghost var middle, log := conn.db, conn.log;
        ghost var step := SpanStep(spans, id, k);
        CopyAndRecord(ledger, sink, id, spans, k);
        CommittedTrans(start, middle, conn.db, done, step);
        NextSpan(spans, id, k, done);
        done := done + step;
      }
      var ok := sink.Finish();
      assert done + [] == done;
    }

    /** The resume decision and the streamed run. The checks on a resumed prefix
        either pass, and the run commits exactly its script, or stop it. */
    method Pump(config: nat, spans: Stream) returns (r: Outcome)
      modifies conn
      ensures r.Streamed? ==> Committed(conn, PumpScript(old(conn.db), config, spans))
      ensures r.Diverged? ==>
        && var plan := FindResumable(old(conn.db), config);
        && plan.Some? && Resumes(old(conn.db), plan.value)
        && !PrefixVerified(KeepUpTo(old(conn.db).table.value, plan.value.rows), plan.value, spans)
        && Committed(conn, TrimScript(old(conn.db), plan.value))
    {
      hide Exec, StreamRows, Apply, Resumes, SpanScript, PrefixVerified, AllVerified, FindResumable, FreshScript, GiveUpScript, TrimScript, PumpScript, Total, KeepUpTo;
      var ledger := new RunLedger(conn);
      ghost var start := conn.db;
      var plan := ledger.FindResumable(config);
      PumpCases(start, config, spans);
      if plan == None {
        var id := Fresh(ledger, config, spans);
        return Streamed(id);
      }
      var ok := ledger.PrepareResume(plan.value);
      ghost var trimmed := conn.db;
      TrimmedTable(start, plan.value);
      if ok {
        r := Resume(ledger, plan.value, spans);
        if r.Streamed? {
          CommittedTrans(start, trimmed, conn.db, TrimScript(start, plan.value), SpanScript(spans, plan.value.id, |plan.value.spans|));
        } else {
          CommittedTrans(start, trimmed, conn.db, TrimScript(start, plan.value), []);
          assert TrimScript(start, plan.value) + [] == TrimScript(start, plan.value);
        }
      } else {
        var id := GiveUp(ledger, plan.value, config, spans);
        CommittedTrans(start, trimmed, conn.db, TrimScript(start, plan.value), GiveUpScript(trimmed, plan.value, config, spans));
        r := Streamed(id);
      }
    }

    method GiveUp(ledger: RunLedger, plan: ResumePlan, config: nat, spans: Stream) returns (id: nat)
      requires ledger.conn == conn
      modifies conn
      ensures Committed(conn, GiveUpScript(old(conn.db), plan, config, spans))
    {
      hide Exec, StreamRows, Apply, Resumes, SpanScript, PrefixVerified, AllVerified, FindResumable, FreshScript, GiveUpScript, TrimScript, PumpScript, Total, KeepUpTo;
      ghost var start := conn.db;
      ledger.MarkFailed(plan.id);
      ghost var failed := conn.db;
      id := Fresh(ledger, config, spans);
      SameIds(start, failed, plan, config, spans);
      CommittedTrans(start, failed, conn.db, [MarkFailed(plan.id), PruneSpans(plan.id)], FreshScript(failed, config, spans));
    }

    method Fresh(ledger: RunLedger, config: nat, spans: Stream) returns (id: nat)
      requires ledger.conn == conn
      modifies conn
      ensures Committed(conn, FreshScript(old(conn.db), config, spans)) && id == old(conn.db).nextId
    {
      hide Exec, StreamRows, SpanScript;
      NoRowsYet(spans);
      ghost var start := conn.db;
      ledger.SupersedeRunning();
      ghost var d2 := conn.db;
      KeepsIds(start);
      id := ledger.BeginRun(config);
      ghost var d3 := conn.db;
      CommittedTrans(start, d2, d3, [SupersedeRunning, PruneDeadSpans], [InsertRun(config)]);
      var sink := new PostgresSink(conn, true, 0);
      ghost var d5 := conn.db;
      ghost var prelude := [SupersedeRunning, PruneDeadSpans] + [InsertRun(config)];
      CommittedTrans(start, d3, d5, prelude, [DropTable, CreateTable]);
      StreamSpans(ledger, sink, id, spans, 0);
      CommittedTrans(start, d5, conn.db, prelude + [DropTable, CreateTable], SpanScript(spans, id, 0));
      assert FreshScript(start, config, spans) == prelude + [DropTable, CreateTable] + SpanScript(spans, id, 0);
    }

    method Resume(ledger: RunLedger, plan: ResumePlan, spans: Stream) returns (r: Outcome)
      requires ledger.conn == conn && conn.db.table.Some? && plan.rows == Total(plan.spans)
      modifies conn
      ensures r.Streamed? <==> PrefixVerified(old(conn.db).table.value, plan, spans)
      ensures r.Streamed? ==> Committed(conn, SpanScript(spans, plan.id, |plan.spans|))
      ensures r.Diverged? ==> Committed(conn, [])
    {
      hide Exec, StreamRows, SpanScript;
      ghost var start := conn.db;
      var sink := new PostgresSink(conn, false, plan.rows);
      assert conn.log == old(conn.log) + [];
      NothingDone(start);
      var ok := VerifyPrefix(plan, spans);
      if !ok {
        return Diverged;
      }
      VerifiedTotal(conn.db.table.value, plan.spans, spans);
      StreamSpans(ledger, sink, plan.id, spans, |plan.spans|);
      r := Streamed(plan.id);
    }

    /** The completion step: the run is found again and marked complete. */
    method FinalizeExports(config: nat)
      modifies conn
      ensures Committed(conn, FinishScript(old(conn.db), config))
    {
      hide Exec, FindResumable;
      var ledger := new RunLedger(conn);
      var plan := ledger.FindResumable(config);
      if plan.Some? {
        ledger.FinishRun(plan.value.id);
      } else {
        NothingDone(conn.db);
        assert conn.log == conn.log + [];
      }
    }

    /** One whole attempt: from tables any earlier crashes may have left, the
        prefix checks never fail and the commits are exactly the attempt's script. */
    method Attempt(config: nat, streams: map<nat, Stream>) returns (r: Outcome)
      requires config in streams && Inv(conn.db, streams)
      modifies conn
      ensures r.Streamed?
      ensures Committed(conn, AttemptScript(old(conn.db), config, streams[config]))
      ensures Inv(conn.db, streams) && conn.db.table == Some(StreamRows(streams[config], |streams[config]|))
    {
      hide Exec, StreamRows, Inv, PumpScript, FinishScript, PrefixVerified, FindResumable, Resumes;
      ghost var start := conn.db;
      PrefixAlwaysVerifies(start, config, streams);
      r := Pump(config, streams[config]);
      ghost var pumped := conn.db;
      FinalizeExports(config);
      CommittedTrans(start, pumped, conn.db, PumpScript(start, config, streams[config]), FinishScript(pumped, config));
      RunSafety.AttemptSafe(start, config, streams);
      RunSafety.AfterAttempt(start, config, streams);
    }
  }

  lemma KeepsIds(db: Db)
    ensures Exec(db, [SupersedeRunning, PruneDeadSpans]).nextId == db.nextId
  {
    TwoStatements(db, SupersedeRunning, PruneDeadSpans);
  }

  lemma SameIds(start: Db, failed: Db, plan: ResumePlan, config: nat, spans: Stream)
    requires failed == Exec(start, [MarkFailed(plan.id), PruneSpans(plan.id)])
    ensures [MarkFailed(plan.id), PruneSpans(plan.id)] + FreshScript(failed, config, spans) == GiveUpScript(start, plan, config, spans)
  {
    hide SpanScript;
    TwoStatements(start, MarkFailed(plan.id), PruneSpans(plan.id));
  }

  // The branches of a pump, and what a found plan's row count is.
  lemma PumpCases(db: Db, config: nat, spans: Stream)
    ensures match FindResumable(db, config)
            case None => PumpScript(db, config, spans) == FreshScript(db, config, spans)
            case Some(plan) =>
              && plan.rows == Total(plan.spans)
              && PumpScript(db, config, spans) == TrimScript(db, plan) +
                   if Resumes(db, plan) then SpanScript(spans, plan.id, |plan.spans|) else GiveUpScript(db, plan, config, spans)
  {
    hide SpanScript, GiveUpScript, FreshScript, TrimScript, Resumes, Total;
  }

  lemma TrimmedTable(db: Db, plan: ResumePlan)
    ensures Resumes(db, plan) ==> db.table.Some? && Exec(db, TrimScript(db, plan)).table == Some(KeepUpTo(db.table.value, plan.rows))
    ensures forall config, spans :: GiveUpScript(Exec(db, TrimScript(db, plan)), plan, config, spans) == GiveUpScript(db, plan, config, spans)
  {
    hide SpanScript;
    if db.table.Some? {
      OneStatement(db, DeleteTail(plan.rows));
    }
  }

  // After crashes alone, the committed prefix is what the stream regenerates.
  lemma PrefixAlwaysVerifies(db: Db, config: nat, streams: map<nat, Stream>)
    requires Inv(db, streams) && config in streams
    ensures var plan := FindResumable(db, config);
            plan.Some? && Resumes(db, plan.value) ==>
              && PrefixVerified(KeepUpTo(db.table.value, plan.value.rows), plan.value, streams[config])
              && plan.value.rows == |StreamRows(streams[config], |plan.value.spans|)|
  {
    hide StreamRows, FindResumable, Resumes;
    var found := FindResumable(db, config);
    if found.Some? && Resumes(db, found.value) {
      var plan, spans := found.value, streams[config];
      RunSafety.FoundPlan(db, config, streams);
      RunSafety.Trimmed(db, config, streams);
      var k := |plan.spans|;
      RunSafety.TailDeleted(spans, k);
      forall j | 0 <= j < k ensures SpanVerified(StreamRows(spans, k), plan.spans[j], spans[j], |StreamRows(spans, j)|) {
        VerifiedSpan(spans, k, j);
      }
    }
  }

  lemma VerifiedSpan(spans: Stream, k: nat, j: nat)
    requires j < k <= |spans|
    ensures SpanVerified(StreamRows(spans, k), RunSafety.EntriesOf(spans, k)[j], spans[j], |StreamRows(spans, j)|)
  {
    hide StreamRows, RunSafety.RowAt;
    var rows, base := StreamRows(spans, k), |StreamRows(spans, j)|;
    LastInside(spans, k, j + 1);
    RowsGrow(spans, j);
    forall i: nat | i < |spans[j]| ensures RowDurable(rows, base, spans[j], i) {
      RunSafety.StreamHolds(spans, k, j, i);
      InRange(rows, base + i);
    }
    assert SpanDurable(rows, base, spans[j]);
  }

  lemma InRange(rows: seq<Row>, i: nat)
    ensures i < |rows| ==> RunSafety.RowAt(rows, i) == Some(rows[i])
  {
  }

  lemma {:induction false} LastInside(spans: Stream, k: nat, j: nat)
    requires j <= k <= |spans|
    ensures |StreamRows(spans, j)| <= |StreamRows(spans, k)|
  {
    if j < k {
      LastInside(spans, k - 1, j);
    }
  }

  lemma NoRowsYet(spans: Stream)
    ensures |StreamRows(spans, 0)| == 0
  {
  }

  lemma RowsGrow(spans: Stream, k: nat)
    requires k < |spans|
    ensures |StreamRows(spans, k + 1)| == |StreamRows(spans, k)| + |spans[k]|
  {
  }

  lemma NothingDone(db: Db)
    ensures Exec(db, []) == db
  {
  }

  function SpanStep(spans: Stream, id: nat, k: nat): seq<Statement>
    requires k < |spans|
  {
    [CopySpan(SpanRows(spans[k], k, |StreamRows(spans, k)|)), RecordSpan(id, k, Entry(|spans[k]|, Some(spans[k])))]
  }

  lemma NextSpan(spans: Stream, id: nat, k: nat, done: seq<Statement>)
    requires k < |spans|
    ensures done + SpanScript(spans, id, k) == (done + SpanStep(spans, id, k)) + SpanScript(spans, id, k + 1)
  {
  }
}
