/** The crash and resume protocol: three tables changed by separate commits, and
    what every prefix of a run's commits leaves behind. */
module RunProtocol {
  import opened Words

  // ---- The tables ----

  /** The rendered text of a row. */
  type Cell = string

  /** A ledger row with its two bookkeeping columns. */
  datatype Row = Row(rowSeq: nat, span: nat, cell: Cell)

  datatype Status = Running | Superseded | Failed | Complete

  /** The configuration stands for its hash; hashes are taken to be distinct. */
  datatype Manifest = Manifest(config: nat, status: Status)

  /** A committed span; the digest stands for the content it was computed from,
      and is missing for runs that record counts only. */
  datatype Entry = Entry(rows: nat, digest: Option<seq<Cell>>)

  datatype Db = Db(nextId: nat, manifest: map<nat, Manifest>, journal: map<nat, map<nat, Entry>>, table: Option<seq<Row>>)

  const EMPTY_DB := Db(1, map[], map[], None)

  datatype Statement =
    | SupersedeRunning
    | PruneDeadSpans
    | InsertRun(config: nat)
    | DropTable
    | CreateTable
    | CopySpan(rows: seq<Row>)
    | RecordSpan(id: nat, span: nat, entry: Entry)
    | DeleteTail(keep: nat)
    | MarkFailed(id: nat)
    | PruneSpans(id: nat)
    | MarkComplete(id: nat)

  function SetStatus(m: map<nat, Manifest>, id: nat, status: Status): map<nat, Manifest> {
    if id in m then m[id := m[id].(status := status)] else m
  }

  function SpansOf(db: Db, id: nat): map<nat, Entry> {
    if id in db.journal then db.journal[id] else map[]
  }

  predicate IsRunning(db: Db, id: nat) {
    id in db.manifest && db.manifest[id].status == Running
  }

  function KeepUpTo(rows: seq<Row>, keep: nat): seq<Row> {
    if rows == [] then []
    else if rows[0].rowSeq <= keep then [rows[0]] + KeepUpTo(rows[1..], keep)
    else KeepUpTo(rows[1..], keep)
  }

  /** One committed statement. */
  function Apply(db: Db, s: Statement): Db {
    match s
    case SupersedeRunning =>
      db.(manifest := map id | id in db.manifest ::
            if db.manifest[id].status == Running then db.manifest[id].(status := Superseded) else db.manifest[id])
    case PruneDeadSpans =>
      db.(journal := map id | id in db.journal && IsRunning(db, id) :: db.journal[id])
    case InsertRun(config) =>
      db.(manifest := db.manifest[db.nextId := Manifest(config, Running)], nextId := db.nextId + 1)
    case DropTable => db.(table := None)
    case CreateTable => if db.table == None then db.(table := Some([])) else db
    case CopySpan(rows) => if db.table.Some? then db.(table := Some(db.table.value + rows)) else db
    case RecordSpan(id, span, entry) => db.(journal := db.journal[id := SpansOf(db, id)[span := entry]])
    case DeleteTail(keep) => if db.table.Some? then db.(table := Some(KeepUpTo(db.table.value, keep))) else db
    case MarkFailed(id) => db.(manifest := SetStatus(db.manifest, id, Failed))
    case PruneSpans(id) => db.(journal := db.journal - {id})
    case MarkComplete(id) => db.(manifest := SetStatus(db.manifest, id, Complete))
  }

  // A statement the server would refuse is never issued.
  predicate Accepted(db: Db, s: Statement) {
    match s
    case CreateTable => db.table == None
    case CopySpan(_) => db.table.Some?
    case DeleteTail(_) => db.table.Some?
    case RecordSpan(id, span, _) => id in db.manifest && span !in SpansOf(db, id)
    case _ => true
  }

  function Exec(db: Db, script: seq<Statement>): Db {
    if script == [] then db else Apply(Exec(db, script[..|script| - 1]), script[|script| - 1])
  }

  lemma {:induction false} ExecConcat(db: Db, s: seq<Statement>, t: seq<Statement>)
    ensures Exec(db, s + t) == Exec(Exec(db, s), t)
  {
    if t == [] {
      assert s + t == s;
    } else {
      var k := |t| - 1;
      ExecConcat(db, s, t[..k]);
      assert (s + t)[..|s + t| - 1] == s + t[..k];
    }
  }

  lemma ExecSnoc(db: Db, s: seq<Statement>, t: Statement)
    ensures Exec(db, s + [t]) == Apply(Exec(db, s), t)
  {
    assert (s + [t])[..|s|] == s;
  }

  // A server crash empties the unlogged table; the logged ones survive.
  function ServerCrash(db: Db): Db {
    if db.table.Some? then db.(table := Some([])) else db
  }

  // ---- The deterministic stream ----

  type Stream = seq<seq<Cell>>

  function SpanRows(cells: seq<Cell>, span: nat, base: nat): (rows: seq<Row>)
    ensures |rows| == |cells| && forall i :: 0 <= i < |rows| ==> rows[i] == Row(base + i + 1, span, cells[i])
  {
    seq(|cells|, i requires 0 <= i < |cells| => Row(base + i + 1, span, cells[i]))
  }

  // The rows of the first k spans, numbered from 1 and tagged with their span.
  function StreamRows(spans: Stream, k: nat): seq<Row>
    requires k <= |spans|
  {
    if k == 0 then
      []
    else
      var before := StreamRows(spans, k - 1);
      before + SpanRows(spans[k - 1], k - 1, |before|)
  }

  lemma {:induction false} StreamRowsNumbered(spans: Stream, k: nat, i: nat)
    requires k <= |spans| && i < |StreamRows(spans, k)|
    ensures StreamRows(spans, k)[i].rowSeq == i + 1 && StreamRows(spans, k)[i].span < k
    ensures StreamRows(spans, k)[i].cell in spans[StreamRows(spans, k)[i].span]
  {
    var before := StreamRows(spans, k - 1);
    if i < |before| {
      StreamRowsNumbered(spans, k - 1, i);
    } else {
      assert spans[k - 1][i - |before|] in spans[k - 1];
    }
  }

  // What the journal says once the first k spans are committed.
  function JournalOf(spans: Stream, k: nat): (m: map<nat, Entry>)
    requires k <= |spans|
    ensures forall i: nat :: i in m <==> i < k
    ensures forall i: nat :: i < k ==> m[i] == Entry(|spans[i]|, Some(spans[i]))
    ensures |m| == k
  {
    if k == 0 then map[] else JournalOf(spans, k - 1)[k - 1 := Entry(|spans[k - 1]|, Some(spans[k - 1]))]
  }

  // ---- The invariant ----

  ghost predicate OneRunning(db: Db) {
    forall i, j :: IsRunning(db, i) && IsRunning(db, j) ==> i == j
  }

  // While a run is running, no other has a journal.
  ghost predicate JournalOfRunning(db: Db) {
    forall i, j :: IsRunning(db, i) && j in db.journal ==> i == j
  }

  ghost predicate KnownIds(db: Db) {
    && (forall id :: id in db.manifest ==> id < db.nextId)
    && (forall id :: id in db.journal ==> id < db.nextId)
  }

  // The journal describes a prefix of the stream, and the table holds that
  // prefix, perhaps with the next span after it, unless a server crash emptied it.
  ghost predicate Durable(db: Db, id: nat, spans: Stream) {
    var k := |SpansOf(db, id)|;
    k > 0 ==>
      && k <= |spans| && SpansOf(db, id) == JournalOf(spans, k)
      && db.table.Some?
      && (db.table.value == [] || db.table.value == StreamRows(spans, k) ||
          (k < |spans| && db.table.value == StreamRows(spans, k + 1)))
  }

  ghost predicate Inv(db: Db, streams: map<nat, Stream>) {
    && OneRunning(db) && KnownIds(db) && JournalOfRunning(db)
    && forall id :: IsRunning(db, id) ==>
         db.manifest[id].config in streams && Durable(db, id, streams[db.manifest[id].config])
  }

  // ---- Deciding to resume ----

  datatype ResumePlan = ResumePlan(id: nat, spans: seq<Entry>, rows: nat)

  function Total(entries: seq<Entry>): nat {
    if entries == [] then 0 else Total(entries[..|entries| - 1]) + entries[|entries| - 1].rows
  }

  ghost function RunningWith(db: Db, config: nat): set<nat> {
    set id | id in db.manifest && IsRunning(db, id) && db.manifest[id].config == config
  }

  ghost predicate IsMax(s: set<nat>, m: nat) {
    m in s && forall x :: x in s ==> x <= m
  }

  lemma {:induction false} MaxExists(s: set<nat>)
    requires s != {}
    ensures exists m: nat :: IsMax(s, m)
  {
    var x :| x in s;
    if s - {x} == {} {
      assert s == {x};
      assert IsMax(s, x);
    } else {
      MaxExists(s - {x});
      var m: nat :| IsMax(s - {x}, m);
      var top: nat := if m >= x then m else x;
      forall y | y in s ensures y <= top {
        assert y == x || y in s - {x};
      }
      assert IsMax(s, top);
    }
  }

  function InOrder(m: map<nat, Entry>, n: nat): (r: seq<Entry>)
    requires forall k: nat :: k < n ==> k in m
    ensures |r| == n && forall k :: 0 <= k < n ==> r[k] == m[k]
  {
    if n == 0 then [] else InOrder(m, n - 1) + [m[n - 1]]
  }

  // The journal of a run as the list the source unpacks, in span order; None
  // unless the spans are 0..k-1 and every one has a digest.
  function Contiguous(m: map<nat, Entry>): Option<seq<Entry>> {
    if forall k: nat :: k < |m| ==> k in m && m[k].digest.Some? then
      Some(InOrder(m, |m|))
    else
      None
  }

  ghost function FindResumable(db: Db, config: nat): Option<ResumePlan> {
    var ids := RunningWith(db, config);
    if ids == {} then
      None
    else
      MaxExists(ids);
      var id: nat :| IsMax(ids, id);
      match Contiguous(SpansOf(db, id))
      case None => None
      case Some(entries) => if Total(entries) == 0 then None else Some(ResumePlan(id, entries, Total(entries)))
  }

  function MaxSeq(rows: seq<Row>): nat {
    if rows == [] then 0 else Max(MaxSeq(rows[..|rows| - 1]), rows[|rows| - 1].rowSeq)
  }

  function Seqs(rows: seq<Row>): set<nat> {
    set r | r in rows :: r.rowSeq
  }

  function CountSpan(rows: seq<Row>, span: nat): nat {
    if rows == [] then 0
    else CountSpan(rows[..|rows| - 1], span) + if rows[|rows| - 1].span == span then 1 else 0
  }

  // The per-span counts the table reports: a span without rows is absent.
  function Profile(rows: seq<Row>): map<nat, nat> {
    map span | span in Tags(rows) :: CountSpan(rows, span)
  }

  function Tags(rows: seq<Row>): set<nat> {
    set r | r in rows :: r.span
  }

  function Expected(entries: seq<Entry>): map<nat, nat> {
    map k: nat | k < |entries| :: entries[k].rows
  }

  // The checks made once the tail has been deleted.
  predicate MatchesPlan(rows: seq<Row>, plan: ResumePlan) {
    && |rows| == plan.rows && MaxSeq(rows) == plan.rows && |Seqs(rows)| == plan.rows
    && Profile(rows) == Expected(plan.spans)
  }

  // ---- The statements of one attempt ----

  function SpanScript(spans: Stream, id: nat, k: nat): seq<Statement>
    decreases |spans| - k
  {
    if k >= |spans| then
      []
    else
      [CopySpan(SpanRows(spans[k], k, |StreamRows(spans, k)|)),
       RecordSpan(id, k, Entry(|spans[k]|, Some(spans[k])))]
      + SpanScript(spans, id, k + 1)
  }

  function FreshScript(db: Db, config: nat, spans: Stream): seq<Statement> {
    [SupersedeRunning, PruneDeadSpans, InsertRun(config), DropTable, CreateTable] + SpanScript(spans, db.nextId, 0)
  }

  function GiveUpScript(db: Db, plan: ResumePlan, config: nat, spans: Stream): seq<Statement> {
    [MarkFailed(plan.id), PruneSpans(plan.id)] + FreshScript(db, config, spans)
  }

  // The plan is taken up when the trimmed table passes every check.
  predicate Resumes(db: Db, plan: ResumePlan) {
    db.table.Some? && MatchesPlan(KeepUpTo(db.table.value, plan.rows), plan)
  }

  function TrimScript(db: Db, plan: ResumePlan): seq<Statement> {
    if db.table.Some? then [DeleteTail(plan.rows)] else []
  }

  ghost function PumpScript(db: Db, config: nat, spans: Stream): seq<Statement> {
    match FindResumable(db, config)
    case None => FreshScript(db, config, spans)
    case Some(plan) =>
      TrimScript(db, plan) +
      if Resumes(db, plan) then SpanScript(spans, plan.id, |plan.spans|) else GiveUpScript(db, plan, config, spans)
  }

  ghost function FinishScript(db: Db, config: nat): seq<Statement> {
    match FindResumable(db, config)
    case None => []
    case Some(plan) => [MarkComplete(plan.id), PruneSpans(plan.id)]
  }

  ghost function AttemptScript(db: Db, config: nat, spans: Stream): seq<Statement> {
    var pump := PumpScript(db, config, spans);
    pump + FinishScript(Exec(db, pump), config)
  }
}
