/** The streaming temporal export: one sequence counter stamps the planned
    changes, the token enrolments and the payments, so that sequence intervals
    mean what the time intervals mean. */
module TemporalExport {
  import opened Words
  import opened TemporalPlan

  const MAX_SEQ: nat := TWO64 - 1

  // ---- What the export keeps ----

  /** The mutable part of a planned association. */
  datatype Mark = Mark(fromSeq: nat, emitted: bool)

  datatype TokenEdge = TokenEdge(edge: Edge, start: int, end: int, fromSeq: nat, emitted: bool)

  datatype Source = Planned(i: nat) | Token(j: nat)

  /** One written association; toSeq is 0 while nothing ended it. */
  datatype EdgeRow = EdgeRow(source: Source, fromSeq: nat, toSeq: nat)

  datatype Role = FromAccount | ToAccount | FromToken | ToToken | UsedDevice | UsedIp

  datatype Part = Part(role: Role, vertex: Ref)

  /** A payment and the vertices that took part in it. */
  datatype Payment = Payment(at: nat, epoch: int, parts: seq<Part>)

  datatype Amount = Finite(value: real) | Infinite | NotANumber

  datatype Txn = Txn(epoch: int, source: nat, target: nat, amount: Amount, zelle: bool, device: Option<Ref>, ip: Option<Ref>)

  datatype Outcome = Done | AfterFinish | NotChronological | Unregistered | BadAmount | SequenceExhausted

  // ---- Meaning of the sequence numbers ----

  /** Live by the sequence clock at a given sequence number. */
  predicate LiveAt(fromSeq: nat, toSeq: nat, at: nat) {
    0 < fromSeq < at && (toSeq == 0 || at < toSeq)
  }

  // A payment is after the opening exactly when its time is, and after the
  // closing exactly when its time is.
  predicate Agrees(t: Tenure, m: Mark, to: nat, p: Payment) {
    && (0 < m.fromSeq < p.at <==> t.start <= p.epoch)
    && (0 < to <= p.at <==> t.end <= p.epoch)
  }

  ghost predicate AllAgree(plan: seq<Tenure>, marks: seq<Mark>, toSeq: seq<nat>, payments: seq<Payment>) {
    && |plan| == |marks| == |toSeq|
    && forall i, p :: 0 <= i < |plan| && 0 <= p < |payments| ==> Agrees(plan[i], marks[i], toSeq[i], payments[p])
  }

  // An association has its numbers exactly when its changes have been processed.
  predicate Stamped(m: Mark, to: nat, opens: nat, closes: nat, next: nat, seqNo: nat) {
    && (m.fromSeq > 0 <==> opens < next)
    && (to > 0 <==> closes < next)
    && m.fromSeq <= seqNo && to <= seqNo
  }

  ghost predicate AllStamped(marks: seq<Mark>, toSeq: seq<nat>, at: Positions, next: nat, seqNo: nat) {
    && |marks| == |toSeq| == |at.opens| == |at.closes|
    && forall i :: 0 <= i < |marks| ==> Stamped(marks[i], toSeq[i], at.opens[i], at.closes[i], next, seqNo)
  }

  // Every change still to come lies after every payment so far.
  ghost predicate Pending(changes: seq<Change>, next: nat, payments: seq<Payment>) {
    forall c, p :: next <= c < |changes| && 0 <= p < |payments| ==> payments[p].epoch < changes[c].epoch
  }

  ghost predicate Stamps(payments: seq<Payment>, seqNo: nat) {
    forall p :: 0 <= p < |payments| ==> payments[p].at <= seqNo
  }

  // ---- One step of each kind keeps the agreement ----

  lemma OpeningAgrees(plan: seq<Tenure>, changes: seq<Change>, at: Positions, windowEnd: int, next: nat,
                      marks: seq<Mark>, toSeq: seq<nat>, payments: seq<Payment>, seqNo: nat)
    requires PlannedBy(changes, plan, windowEnd, at) && next < |changes| && changes[next].opening
    requires AllStamped(marks, toSeq, at, next, seqNo) && AllAgree(plan, marks, toSeq, payments)
    requires Pending(changes, next, payments) && Stamps(payments, seqNo)
    ensures var i := changes[next].association;
            && i < |marks|
            && AllStamped(marks[i := marks[i].(fromSeq := seqNo + 1)], toSeq, at, next + 1, seqNo + 1)
            && AllAgree(plan, marks[i := marks[i].(fromSeq := seqNo + 1)], toSeq, payments)
            && plan[i].start == changes[next].epoch
            && Pending(changes, next + 1, payments)
  {
    hide ByEpoch, ChangesAt;
    assert ChangeIs(changes, at, next);
    var i := changes[next].association;
    ChangeFacts(plan, changes, at, windowEnd, i);
    var marks' := marks[i := marks[i].(fromSeq := seqNo + 1)];
    forall k | 0 <= k < |marks|
      ensures Stamped(marks'[k], toSeq[k], at.opens[k], at.closes[k], next + 1, seqNo + 1)
    {
      OtherPositions(plan, changes, at, windowEnd, next, k);
      assert Stamped(marks[k], toSeq[k], at.opens[k], at.closes[k], next, seqNo);
    }
    forall k, p | 0 <= k < |plan| && 0 <= p < |payments| ensures Agrees(plan[k], marks'[k], toSeq[k], payments[p]) {
      assert Agrees(plan[k], marks[k], toSeq[k], payments[p]);
    }
  }

  lemma ChangeFacts(plan: seq<Tenure>, changes: seq<Change>, at: Positions, windowEnd: int, i: nat)
    requires PlannedBy(changes, plan, windowEnd, at) && i < |plan|
    ensures at.opens[i] < |changes| && changes[at.opens[i]] == Change(plan[i].start, true, i)
    ensures at.closes[i] < |changes| ==> changes[at.closes[i]] == Change(plan[i].end, false, i)
    ensures at.closes[i] <= |changes| && (at.closes[i] < |changes| <==> plan[i].end < windowEnd)
    ensures plan[i].start < plan[i].end ==> at.opens[i] < at.closes[i]
  {
    assert ChangesAt(changes, plan, windowEnd, at, i);
  }

  // Only the association a change names stands at that change.
  lemma OtherPositions(plan: seq<Tenure>, changes: seq<Change>, at: Positions, windowEnd: int, next: nat, k: nat)
    requires PlannedBy(changes, plan, windowEnd, at) && next < |changes| && k < |plan|
    ensures at.opens[k] == next <==> changes[next].opening && changes[next].association == k
    ensures at.closes[k] == next <==> !changes[next].opening && changes[next].association == k
  {
    hide ByEpoch, ChangesAt;
    assert ChangeIs(changes, at, next);
    ChangeFacts(plan, changes, at, windowEnd, k);
  }

  lemma ClosingAgrees(plan: seq<Tenure>, changes: seq<Change>, at: Positions, windowEnd: int, next: nat,
                      marks: seq<Mark>, toSeq: seq<nat>, payments: seq<Payment>, seqNo: nat)
    requires PlannedBy(changes, plan, windowEnd, at) && next < |changes| && !changes[next].opening
    requires forall k :: 0 <= k < |plan| ==> plan[k].start < plan[k].end
    requires AllStamped(marks, toSeq, at, next, seqNo) && AllAgree(plan, marks, toSeq, payments)
    requires Pending(changes, next, payments) && Stamps(payments, seqNo)
    ensures var i := changes[next].association;
            && i < |marks| == |toSeq| && marks[i].fromSeq > 0 && at.closes[i] == next
            && AllStamped(marks, toSeq[i := seqNo + 1], at, next + 1, seqNo + 1)
            && AllAgree(plan, marks, toSeq[i := seqNo + 1], payments)
            && Pending(changes, next + 1, payments)
  {
    hide ByEpoch, ChangesAt;
    assert ChangeIs(changes, at, next);
    var i := changes[next].association;
    ChangeFacts(plan, changes, at, windowEnd, i);
    var toSeq' := toSeq[i := seqNo + 1];
    forall k | 0 <= k < |marks|
      ensures Stamped(marks[k], toSeq'[k], at.opens[k], at.closes[k], next + 1, seqNo + 1)
    {
      OtherPositions(plan, changes, at, windowEnd, next, k);
      assert Stamped(marks[k], toSeq[k], at.opens[k], at.closes[k], next, seqNo);
    }
    forall k, p | 0 <= k < |plan| && 0 <= p < |payments| ensures Agrees(plan[k], marks[k], toSeq'[k], payments[p]) {
      assert Agrees(plan[k], marks[k], toSeq[k], payments[p]);
    }
  }

  lemma PaymentAgrees(plan: seq<Tenure>, changes: seq<Change>, at: Positions, windowEnd: int, next: nat,
                      marks: seq<Mark>, toSeq: seq<nat>, payments: seq<Payment>, seqNo: nat, p: Payment)
    requires PlannedBy(changes, plan, windowEnd, at) && next <= |changes|
    requires AllStamped(marks, toSeq, at, next, seqNo) && AllAgree(plan, marks, toSeq, payments)
    requires Pending(changes, next, payments)
    requires p.at > seqNo && p.epoch < windowEnd
    requires forall c :: 0 <= c < next ==> changes[c].epoch <= p.epoch
    requires forall c :: next <= c < |changes| ==> p.epoch < changes[c].epoch
    ensures AllAgree(plan, marks, toSeq, payments + [p]) && Pending(changes, next, payments + [p])
  {
    hide ByEpoch, ChangesAt;
    forall k | 0 <= k < |plan| ensures Agrees(plan[k], marks[k], toSeq[k], p) {
      ChangeFacts(plan, changes, at, windowEnd, k);
      assert Stamped(marks[k], toSeq[k], at.opens[k], at.closes[k], next, seqNo);
    }
  }

  // ---- Written rows ----

  ghost predicate RowTrue(row: EdgeRow, marks: seq<Mark>, toSeq: seq<nat>, tokens: seq<TokenEdge>)
    requires |marks| == |toSeq|
  {
    match row.source
    case Planned(i) => i < |marks| && marks[i].emitted && row.fromSeq == marks[i].fromSeq && row.toSeq == toSeq[i]
    case Token(j) => j < |tokens| && tokens[j].emitted && row.fromSeq == tokens[j].fromSeq
  }

  ghost predicate HasRow(edges: seq<EdgeRow>, source: Source) {
    exists r :: 0 <= r < |edges| && edges[r].source == source
  }

  // Each emitted association has one row, and the row says what it went through.
  ghost predicate Written(edges: seq<EdgeRow>, marks: seq<Mark>, toSeq: seq<nat>, tokens: seq<TokenEdge>) {
    && |marks| == |toSeq|
    && (forall r :: 0 <= r < |edges| ==> RowTrue(edges[r], marks, toSeq, tokens))
    && (forall r, q :: 0 <= r < q < |edges| ==> edges[r].source != edges[q].source)
    && (forall i :: 0 <= i < |marks| && marks[i].emitted ==> HasRow(edges, Planned(i)))
    && (forall j :: 0 <= j < |tokens| && tokens[j].emitted ==> HasRow(edges, Token(j)))
  }

  lemma HasRowSnoc(edges: seq<EdgeRow>, row: EdgeRow, source: Source)
    requires HasRow(edges, source) || row.source == source
    ensures HasRow(edges + [row], source)
  {
    if HasRow(edges, source) {
      var r :| 0 <= r < |edges| && edges[r].source == source;
      assert (edges + [row])[r] == edges[r];
    } else {
      assert (edges + [row])[|edges|] == row;
    }
  }

  lemma EmitPlanned(edges: seq<EdgeRow>, marks: seq<Mark>, toSeq: seq<nat>, tokens: seq<TokenEdge>, i: nat, to: nat)
    requires Written(edges, marks, toSeq, tokens) && i < |marks| && !marks[i].emitted
    ensures Written(edges + [EdgeRow(Planned(i), marks[i].fromSeq, to)],
                    marks[i := marks[i].(emitted := true)], toSeq[i := to], tokens)
  {
    hide HasRow;
    var row := EdgeRow(Planned(i), marks[i].fromSeq, to);
    forall k | 0 <= k < |marks| && (k == i || marks[k].emitted) ensures HasRow(edges + [row], Planned(k)) {
      HasRowSnoc(edges, row, Planned(k));
    }
    forall j | 0 <= j < |tokens| && tokens[j].emitted ensures HasRow(edges + [row], Token(j)) {
      HasRowSnoc(edges, row, Token(j));
    }
  }

  lemma EmitToken(edges: seq<EdgeRow>, marks: seq<Mark>, toSeq: seq<nat>, tokens: seq<TokenEdge>, j: nat, to: nat)
    requires Written(edges, marks, toSeq, tokens) && j < |tokens| && !tokens[j].emitted
    ensures Written(edges + [EdgeRow(Token(j), tokens[j].fromSeq, to)],
                    marks, toSeq, tokens[j := tokens[j].(emitted := true)])
  {
    hide HasRow;
    var row := EdgeRow(Token(j), tokens[j].fromSeq, to);
    forall i | 0 <= i < |marks| && marks[i].emitted ensures HasRow(edges + [row], Planned(i)) {
      HasRowSnoc(edges, row, Planned(i));
    }
    forall k | 0 <= k < |tokens| && (k == j || tokens[k].emitted) ensures HasRow(edges + [row], Token(k)) {
      HasRowSnoc(edges, row, Token(k));
    }
  }

  lemma OpenPlanned(edges: seq<EdgeRow>, marks: seq<Mark>, toSeq: seq<nat>, tokens: seq<TokenEdge>, i: nat, at: nat)
    requires Written(edges, marks, toSeq, tokens) && i < |marks| && !marks[i].emitted
    ensures Written(edges, marks[i := marks[i].(fromSeq := at)], toSeq, tokens)
  {
    hide HasRow;
  }

  lemma OpenToken(edges: seq<EdgeRow>, marks: seq<Mark>, toSeq: seq<nat>, tokens: seq<TokenEdge>, t: TokenEdge)
    requires Written(edges, marks, toSeq, tokens) && !t.emitted
    ensures Written(edges, marks, toSeq, tokens + [t])
  {
    hide HasRow;
  }

  // ---- Vertices ----

  ghost predicate SeenBy(firstSeen: map<Ref, nat>, ref: Ref, at: nat) {
    ref in firstSeen && firstSeen[ref] <= at
  }

  ghost predicate EndsSeen(firstSeen: map<Ref, nat>, edge: Edge, at: nat) {
    SeenBy(firstSeen, edge.from, at) && SeenBy(firstSeen, edge.to, at)
  }

  // Every endpoint was observed no later than the row that mentions it.
  ghost predicate Observed(firstSeen: map<Ref, nat>, plan: seq<Tenure>, marks: seq<Mark>, tokens: seq<TokenEdge>, payments: seq<Payment>) {
    && |plan| == |marks|
    && (forall i :: 0 <= i < |marks| && marks[i].fromSeq > 0 ==> EndsSeen(firstSeen, plan[i].edge, marks[i].fromSeq))
    && (forall j :: 0 <= j < |tokens| ==> EndsSeen(firstSeen, tokens[j].edge, tokens[j].fromSeq))
    && (forall p, e :: 0 <= p < |payments| && e in payments[p].parts ==> SeenBy(firstSeen, e.vertex, payments[p].at))
  }

  // A vertex is written once, at the first sequence number that mentions it.
  function Observe(firstSeen: map<Ref, nat>, ref: Ref, at: nat): map<Ref, nat> {
    if ref in firstSeen then firstSeen else firstSeen[ref := at]
  }

  ghost predicate NotAfter(firstSeen: map<Ref, nat>, seqNo: nat) {
    forall r :: r in firstSeen ==> firstSeen[r] <= seqNo
  }

  ghost predicate Grows(before: map<Ref, nat>, after: map<Ref, nat>) {
    forall r :: r in before ==> r in after && after[r] == before[r]
  }

  lemma ObserveGrows(firstSeen: map<Ref, nat>, ref: Ref, at: nat)
    requires NotAfter(firstSeen, at)
    ensures Grows(firstSeen, Observe(firstSeen, ref, at))
    ensures SeenBy(Observe(firstSeen, ref, at), ref, at) && NotAfter(Observe(firstSeen, ref, at), at)
  {
  }

  lemma ObserveEnds(firstSeen: map<Ref, nat>, edge: Edge, at: nat)
    requires NotAfter(firstSeen, at)
    ensures var after := Observe(Observe(firstSeen, edge.from, at), edge.to, at);
            Grows(firstSeen, after) && EndsSeen(after, edge, at) && NotAfter(after, at)
  {
    ObserveGrows(firstSeen, edge.from, at);
    ObserveGrows(Observe(firstSeen, edge.from, at), edge.to, at);
  }

  lemma StaysObserved(before: map<Ref, nat>, after: map<Ref, nat>, plan: seq<Tenure>, marks: seq<Mark>,
                      tokens: seq<TokenEdge>, payments: seq<Payment>)
    requires Observed(before, plan, marks, tokens, payments) && Grows(before, after)
    ensures Observed(after, plan, marks, tokens, payments)
  {
  }

  // ---- Token closings still due ----

  ghost predicate Queued(closures: seq<(int, nat)>, tokens: seq<TokenEdge>) {
    && (forall k :: 0 <= k < |closures| ==>
         closures[k].1 < |tokens| && !tokens[closures[k].1].emitted && tokens[closures[k].1].end == closures[k].0)
    && (forall k, l :: 0 <= k < l < |closures| ==> closures[k].0 <= closures[l].0 && closures[k].1 != closures[l].1)
  }

  // A new closing goes after those due at the same time.
  function Enqueue(closures: seq<(int, nat)>, c: (int, nat)): seq<(int, nat)> {
    if closures != [] && closures[0].0 <= c.0 then [closures[0]] + Enqueue(closures[1..], c) else [c] + closures
  }

  /** A closing stands behind those due no later and before the others. */
  lemma {:induction false} EnqueuedBetween(closures: seq<(int, nat)>, c: (int, nat), i: nat)
    requires i <= |closures| && (forall k :: 0 <= k < i ==> closures[k].0 <= c.0)
    requires i < |closures| ==> closures[i].0 > c.0
    ensures Enqueue(closures, c) == closures[..i] + [c] + closures[i..]
  {
    if i > 0 {
      EnqueuedBetween(closures[1..], c, i - 1);
      assert closures == [closures[0]] + closures[1..];
      assert closures[1..][..i - 1] == closures[1..i] && closures[1..][i - 1..] == closures[i..];
      assert closures[..i] == [closures[0]] + closures[1..i];
    }
  }

  lemma {:induction false} EnqueueLength(closures: seq<(int, nat)>, c: (int, nat))
    ensures |Enqueue(closures, c)| == |closures| + 1
  {
    if closures != [] && closures[0].0 <= c.0 {
      EnqueueLength(closures[1..], c);
    }
  }

  lemma {:induction false} EnqueueMember(closures: seq<(int, nat)>, c: (int, nat), x: (int, nat))
    ensures x in Enqueue(closures, c) <==> x == c || x in closures
  {
    if closures != [] && closures[0].0 <= c.0 {
      EnqueueMember(closures[1..], c, x);
      assert closures == [closures[0]] + closures[1..];
    }
  }

  lemma {:induction false} EnqueueKeeps(closures: seq<(int, nat)>, c: (int, nat), tokens: seq<TokenEdge>)
    requires Queued(closures, tokens) && c.1 < |tokens| && !tokens[c.1].emitted && tokens[c.1].end == c.0
    requires forall k :: 0 <= k < |closures| ==> closures[k].1 != c.1
    ensures Queued(Enqueue(closures, c), tokens)
  {
    if closures != [] && closures[0].0 <= c.0 {
      EnqueueKeeps(closures[1..], c, tokens);
      var rest := Enqueue(closures[1..], c);
      forall k | 0 <= k < |rest| ensures closures[0].0 <= rest[k].0 && closures[0].1 != rest[k].1 {
        EnqueueMember(closures[1..], c, rest[k]);
      }
    }
  }

  lemma QueuePush(closures: seq<(int, nat)>, tokens: seq<TokenEdge>, t: TokenEdge)
    requires Queued(closures, tokens) && !t.emitted
    ensures Queued(closures, tokens + [t])
    ensures Queued(Enqueue(closures, (t.end, |tokens|)), tokens + [t])
  {
    EnqueueKeeps(closures, (t.end, |tokens|), tokens + [t]);
  }

  lemma QueuePop(closures: seq<(int, nat)>, tokens: seq<TokenEdge>)
    requires Queued(closures, tokens) && closures != []
    ensures closures[0].1 < |tokens| && !tokens[closures[0].1].emitted
    ensures Queued(closures[1..], tokens[closures[0].1 := tokens[closures[0].1].(emitted := true)])
  {
  }

  // ---- The order of the numbers ----

  /** What a sequence number was given to: the c-th planned change, the opening or
      closing of a token edge, a payment, or the arrival of a Zelle payment. */
  datatype Event = ChangeDue(c: nat) | TokenOpened(j: nat) | TokenClosed(j: nat) | Paid(p: nat) | Arrived(p: nat)

  // What is due by a time, in order: a token closing before a change of its time.
  function Merged(changes: seq<Change>, next: nat, closures: seq<(int, nat)>, epoch: int): (r: seq<Event>)
    requires next <= |changes|
    ensures |r| <= |changes| - next + |closures|
    decreases |changes| - next + |closures|
  {
    if closures != [] && closures[0].0 <= epoch && (next == |changes| || closures[0].0 <= changes[next].epoch) then
      [TokenClosed(closures[0].1)] + Merged(changes, next, closures[1..], epoch)
    else if next < |changes| && changes[next].epoch <= epoch then
      [ChangeDue(next)] + Merged(changes, next + 1, closures, epoch)
    else []
  }

  // The openings of so many token edges after n.
  function Openings(n: nat, count: nat): (r: seq<Event>)
    ensures |r| == count
  {
    seq(count, k requires 0 <= k < count => TokenOpened(n + k))
  }

  lemma OpeningsTwice(n: nat, a: nat, b: nat)
    ensures Openings(n, a) + Openings(n + a, b) == Openings(n, a + b)
  {
  }

  lemma FourParts(a: seq<Event>, b: seq<Event>, c: seq<Event>, d: seq<Event>)
    ensures a + b + c + d == a + (b + c + d)
    ensures c == [] ==> a + b + d == a + (b + c + d)
  {
  }

  // Number s was given to this event; no number says nothing.
  predicate Names(log: seq<Event>, s: nat, e: Event) {
    s == 0 || (s <= |log| && log[s - 1] == e)
  }

  predicate RowNamed(log: seq<Event>, row: EdgeRow) {
    row.source.Token? ==> Names(log, row.toSeq, TokenClosed(row.source.j))
  }

  // Every number written names the event it stands for.
  ghost predicate Logged(log: seq<Event>, at: Positions, marks: seq<Mark>, toSeq: seq<nat>, tokens: seq<TokenEdge>,
                         edges: seq<EdgeRow>, payments: seq<Payment>) {
    && |marks| == |toSeq| == |at.opens| == |at.closes|
    && (forall i :: 0 <= i < |marks| ==> Names(log, marks[i].fromSeq, ChangeDue(at.opens[i])))
    && (forall i :: 0 <= i < |marks| ==> Names(log, toSeq[i], ChangeDue(at.closes[i])))
    && (forall j :: 0 <= j < |tokens| ==> tokens[j].fromSeq > 0 && Names(log, tokens[j].fromSeq, TokenOpened(j)))
    && (forall r :: 0 <= r < |edges| ==> RowNamed(log, edges[r]))
    && forall p :: 0 <= p < |payments| ==> payments[p].at > 0 && Names(log, payments[p].at, Paid(p))
  }

  lemma LogGrows(log: seq<Event>, e: Event, at: Positions, marks: seq<Mark>, toSeq: seq<nat>, tokens: seq<TokenEdge>,
                 edges: seq<EdgeRow>, payments: seq<Payment>)
    requires Logged(log, at, marks, toSeq, tokens, edges, payments)
    ensures Logged(log + [e], at, marks, toSeq, tokens, edges, payments)
  {
    forall s: nat, x | Names(log, s, x) ensures Names(log + [e], s, x) {
    }
  }

  lemma LogOpened(log: seq<Event>, at: Positions, marks: seq<Mark>, toSeq: seq<nat>, tokens: seq<TokenEdge>,
                  edges: seq<EdgeRow>, payments: seq<Payment>, i: nat)
    requires Logged(log, at, marks, toSeq, tokens, edges, payments) && i < |marks|
    requires log != [] && log[|log| - 1] == ChangeDue(at.opens[i])
    ensures Logged(log, at, marks[i := marks[i].(fromSeq := |log|)], toSeq, tokens, edges, payments)
  {
  }

  lemma LogClosed(log: seq<Event>, at: Positions, marks: seq<Mark>, toSeq: seq<nat>, tokens: seq<TokenEdge>,
                  edges: seq<EdgeRow>, payments: seq<Payment>, i: nat, to: nat)
    requires Logged(log, at, marks, toSeq, tokens, edges, payments) && i < |marks|
    requires Names(log, to, ChangeDue(at.closes[i]))
    ensures Logged(log, at, marks[i := marks[i].(emitted := true)], toSeq[i := to], tokens,
                   edges + [EdgeRow(Planned(i), marks[i].fromSeq, to)], payments)
  {
  }

  lemma LogTokenClosed(log: seq<Event>, at: Positions, marks: seq<Mark>, toSeq: seq<nat>, tokens: seq<TokenEdge>,
                       edges: seq<EdgeRow>, payments: seq<Payment>, j: nat, to: nat)
    requires Logged(log, at, marks, toSeq, tokens, edges, payments) && j < |tokens|
    requires Names(log, to, TokenClosed(j))
    ensures Logged(log, at, marks, toSeq, tokens[j := tokens[j].(emitted := true)],
                   edges + [EdgeRow(Token(j), tokens[j].fromSeq, to)], payments)
  {
  }

  lemma LogTokenOpened(log: seq<Event>, at: Positions, marks: seq<Mark>, toSeq: seq<nat>, tokens: seq<TokenEdge>,
                       edges: seq<EdgeRow>, payments: seq<Payment>, t: TokenEdge)
    requires Logged(log, at, marks, toSeq, tokens, edges, payments)
    requires log != [] && log[|log| - 1] == TokenOpened(|tokens|) && t.fromSeq == |log|
    ensures Logged(log, at, marks, toSeq, tokens + [t], edges, payments)
  {
  }

  lemma LogPaid(log: seq<Event>, at: Positions, marks: seq<Mark>, toSeq: seq<nat>, tokens: seq<TokenEdge>,
                edges: seq<EdgeRow>, payments: seq<Payment>, p: Payment)
    requires Logged(log, at, marks, toSeq, tokens, edges, payments)
    requires p.at > 0 && Names(log, p.at, Paid(|payments|))
    ensures Logged(log, at, marks, toSeq, tokens, edges, payments + [p])
  {
  }

  // ---- What the numbers of a token edge mean ----

  // The token is enrolled before its owner leaves.
  predicate Lasting(t: TokenEdge) {
    t.start < t.end
  }

  // A payment after the edge's opening comes after its closing exactly when its
  // time does; no closing number means that it never closed.
  predicate TokenAgrees(t: TokenEdge, to: nat, p: Payment) {
    Lasting(t) && p.at > t.fromSeq ==> (0 < to <= p.at <==> t.end <= p.epoch)
  }

  ghost predicate RowAgrees(row: EdgeRow, tokens: seq<TokenEdge>, payments: seq<Payment>) {
    row.source.Token? ==>
      && row.source.j < |tokens|
      && forall p :: 0 <= p < |payments| ==> TokenAgrees(tokens[row.source.j], row.toSeq, payments[p])
  }

  // An edge not written yet waits in the queue if it ends inside the window, and
  // no payment so far has come after its end.
  ghost predicate Waits(tokens: seq<TokenEdge>, j: nat, closures: seq<(int, nat)>, payments: seq<Payment>, windowEnd: int)
    requires j < |tokens|
  {
    !tokens[j].emitted ==>
      && (tokens[j].end < windowEnd ==> (tokens[j].end, j) in closures)
      && forall p :: 0 <= p < |payments| ==> TokenAgrees(tokens[j], 0, payments[p])
  }

  // What has been closed ended by the given time.
  predicate ClosedBy(row: EdgeRow, tokens: seq<TokenEdge>, epoch: int) {
    row.source.Token? && row.toSeq > 0 ==> row.source.j < |tokens| && tokens[row.source.j].end <= epoch
  }

  ghost predicate TokensMean(edges: seq<EdgeRow>, tokens: seq<TokenEdge>, closures: seq<(int, nat)>, payments: seq<Payment>,
                             windowEnd: int, epoch: int) {
    && (forall r :: 0 <= r < |edges| ==> RowAgrees(edges[r], tokens, payments) && ClosedBy(edges[r], tokens, epoch))
    && forall j :: 0 <= j < |tokens| ==> Waits(tokens, j, closures, payments, windowEnd)
  }

  // Until the export is finished every token edge written has been closed.
  ghost predicate OnlyClosed(edges: seq<EdgeRow>) {
    forall r :: 0 <= r < |edges| && edges[r].source.Token? ==> edges[r].toSeq > 0
  }

  // Everyone still waiting to be closed ends after the given time.
  ghost predicate AllOutlast(tokens: seq<TokenEdge>, epoch: int) {
    forall j :: 0 <= j < |tokens| && !tokens[j].emitted && Lasting(tokens[j]) ==> epoch < tokens[j].end
  }

  lemma MeansLater(edges: seq<EdgeRow>, tokens: seq<TokenEdge>, closures: seq<(int, nat)>, payments: seq<Payment>,
                   windowEnd: int, epoch: int, later: int)
    requires TokensMean(edges, tokens, closures, payments, windowEnd, epoch) && epoch <= later
    ensures TokensMean(edges, tokens, closures, payments, windowEnd, later)
  {
    hide RowAgrees, Waits;
    forall r | 0 <= r < |edges| ensures ClosedBy(edges[r], tokens, later) {
      assert ClosedBy(edges[r], tokens, epoch);
    }
  }

  lemma MeansPlanned(edges: seq<EdgeRow>, row: EdgeRow, tokens: seq<TokenEdge>, closures: seq<(int, nat)>, payments: seq<Payment>,
                     windowEnd: int, epoch: int)
    requires TokensMean(edges, tokens, closures, payments, windowEnd, epoch) && row.source.Planned?
    ensures TokensMean(edges + [row], tokens, closures, payments, windowEnd, epoch)
  {
    hide Waits;
    var more := edges + [row];
    forall r | 0 <= r < |more| ensures RowAgrees(more[r], tokens, payments) && ClosedBy(more[r], tokens, epoch) {
      if r < |edges| {
        assert RowAgrees(edges[r], tokens, payments) && ClosedBy(edges[r], tokens, epoch);
      }
    }
  }

  // One token edge written, closed by its number or left open for good.
  lemma MeansWritten(edges: seq<EdgeRow>, tokens: seq<TokenEdge>, closures: seq<(int, nat)>, left: seq<(int, nat)>,
                     payments: seq<Payment>, windowEnd: int, epoch: int, j: nat, to: nat)
    requires TokensMean(edges, tokens, closures, payments, windowEnd, epoch) && j < |tokens| && !tokens[j].emitted
    requires forall c :: c in closures && c.1 != j ==> c in left
    requires to > 0 ==> tokens[j].end <= epoch && forall p :: 0 <= p < |payments| ==> payments[p].at < to
    ensures TokensMean(edges + [EdgeRow(Token(j), tokens[j].fromSeq, to)], tokens[j := tokens[j].(emitted := true)], left, payments,
                       windowEnd, epoch)
  {
    var row := EdgeRow(Token(j), tokens[j].fromSeq, to);
    var more, after := edges + [row], tokens[j := tokens[j].(emitted := true)];
    forall r | 0 <= r < |more| ensures RowAgrees(more[r], after, payments) && ClosedBy(more[r], after, epoch) {
      assert Waits(tokens, j, closures, payments, windowEnd);
      if r < |edges| {
        assert RowAgrees(edges[r], tokens, payments) && ClosedBy(edges[r], tokens, epoch);
      }
      SameRow(more[r], tokens, after, payments, j);
    }
    forall k | 0 <= k < |after| ensures Waits(after, k, left, payments, windowEnd) {
      assert Waits(tokens, k, closures, payments, windowEnd);
    }
  }

  lemma ClosingMeans(edges: seq<EdgeRow>, tokens: seq<TokenEdge>, closures: seq<(int, nat)>, payments: seq<Payment>,
                     windowEnd: int, epoch: int, s: nat)
    requires TokensMean(edges, tokens, closures, payments, windowEnd, epoch) && OnlyClosed(edges) && Queued(closures, tokens)
    requires closures != [] && closures[0].0 <= epoch && s > 0 && Stamps(payments, s - 1)
    ensures var j := closures[0].1;
            && j < |tokens|
            && var row := EdgeRow(Token(j), tokens[j].fromSeq, s);
               TokensMean(edges + [row], tokens[j := tokens[j].(emitted := true)], closures[1..], payments, windowEnd, epoch)
               && OnlyClosed(edges + [row])
  {
    hide TokensMean;
    var j := closures[0].1;
    forall c | c in closures && c.1 != j ensures c in closures[1..] {
      var k :| 0 <= k < |closures| && closures[k] == c;
      assert closures[1..][k - 1] == c;
    }
    MeansWritten(edges, tokens, closures, closures[1..], payments, windowEnd, epoch, j, s);
  }

  lemma OpeningMeans(edges: seq<EdgeRow>, tokens: seq<TokenEdge>, closures: seq<(int, nat)>, payments: seq<Payment>,
                     windowEnd: int, epoch: int, t: TokenEdge)
    requires TokensMean(edges, tokens, closures, payments, windowEnd, epoch) && AllOutlast(tokens, epoch)
    requires !t.emitted && t.start == epoch && t.fromSeq > 0 && Stamps(payments, t.fromSeq - 1)
    ensures TokensMean(edges, tokens + [t], if t.end < windowEnd then Enqueue(closures, (t.end, |tokens|)) else closures, payments,
                       windowEnd, epoch)
    ensures AllOutlast(tokens + [t], epoch)
  {
    hide TokensMean;
    var more := if t.end < windowEnd then Enqueue(closures, (t.end, |tokens|)) else closures;
    forall c ensures c in closures || (t.end < windowEnd && c == (t.end, |tokens|)) ==> c in more {
      EnqueueMember(closures, (t.end, |tokens|), c);
    }
    MeansOpened(edges, tokens, closures, more, payments, windowEnd, epoch, t);
  }

  lemma SameRow(row: EdgeRow, tokens: seq<TokenEdge>, after: seq<TokenEdge>, payments: seq<Payment>, j: nat)
    requires j < |tokens| && after == tokens[j := tokens[j].(emitted := true)]
    ensures RowAgrees(row, tokens, payments) ==> RowAgrees(row, after, payments)
  {
    if RowAgrees(row, tokens, payments) && row.source.Token? {
      forall p | 0 <= p < |payments| ensures TokenAgrees(after[row.source.j], row.toSeq, payments[p]) {
        assert TokenAgrees(tokens[row.source.j], row.toSeq, payments[p]);
      }
    }
  }

  // A new edge opens after every payment so far.
  lemma MeansOpened(edges: seq<EdgeRow>, tokens: seq<TokenEdge>, closures: seq<(int, nat)>, more: seq<(int, nat)>,
                    payments: seq<Payment>, windowEnd: int, epoch: int, t: TokenEdge)
    requires TokensMean(edges, tokens, closures, payments, windowEnd, epoch) && !t.emitted
    requires forall p :: 0 <= p < |payments| ==> payments[p].at < t.fromSeq
    requires (forall c :: c in closures ==> c in more) && (t.end < windowEnd ==> (t.end, |tokens|) in more)
    ensures TokensMean(edges, tokens + [t], more, payments, windowEnd, epoch)
  {
    var after := tokens + [t];
    forall r | 0 <= r < |edges| ensures RowAgrees(edges[r], after, payments) && ClosedBy(edges[r], after, epoch) {
      assert RowAgrees(edges[r], tokens, payments) && ClosedBy(edges[r], tokens, epoch);
    }
    forall k | 0 <= k < |after| ensures Waits(after, k, more, payments, windowEnd) {
      assert k < |tokens| ==> Waits(tokens, k, closures, payments, windowEnd);
    }
  }

  // A payment at the time everything has been closed up to.
  lemma MeansPaid(edges: seq<EdgeRow>, tokens: seq<TokenEdge>, closures: seq<(int, nat)>, payments: seq<Payment>,
                  windowEnd: int, p: Payment)
    requires TokensMean(edges, tokens, closures, payments, windowEnd, p.epoch) && AllOutlast(tokens, p.epoch)
    requires forall r :: 0 <= r < |edges| && edges[r].source.Token? ==> 0 < edges[r].toSeq < p.at
    ensures TokensMean(edges, tokens, closures, payments + [p], windowEnd, p.epoch)
  {
    var more := payments + [p];
    forall r | 0 <= r < |edges| ensures RowAgrees(edges[r], tokens, more) {
      assert RowAgrees(edges[r], tokens, payments) && ClosedBy(edges[r], tokens, p.epoch);
    }
    forall k | 0 <= k < |tokens| ensures Waits(tokens, k, closures, more, windowEnd) {
      assert Waits(tokens, k, closures, payments, windowEnd);
    }
  }

  // ---- The exporter ----

  class Exporter {
    const start: int
    const end: int
    const plan: seq<Tenure>
    const changes: seq<Change>
    const accounts: map<nat, Ref>
    const owners: map<nat, Ref>
    const closeOf: map<nat, int>
    const tokenRefs: map<nat, Ref>
    ghost const at: Positions
    ghost const evidence: seq<Evidence>

    var lastEpoch: int
    var seqNo: nat
    var finished: bool
    var next: nat
    var marks: seq<Mark>
    var tokens: seq<TokenEdge>
    var closures: seq<(int, nat)>
    var enrolled: map<nat, Ref>
    var edges: seq<EdgeRow>
    var payments: seq<Payment>
    var firstSeen: map<Ref, nat>
    ghost var toSeq: seq<nat>
    ghost var log: seq<Event>

    ghost predicate Config() {
      && PlannedBy(changes, plan, end, at)
      && Backs(evidence, plan, start, end)
      && (forall i :: 0 <= i < |plan| ==> InWindow(plan[i], start, end))
      && accounts.Keys <= tokenRefs.Keys && owners.Keys <= closeOf.Keys
    }

    ghost predicate Base()
      reads this`seqNo, this`next, this`marks, this`toSeq, this`tokens, this`edges, this`payments, this`firstSeen, this`log
    {
      && Config() && next <= |changes| && |log| == seqNo <= MAX_SEQ
      && Logged(log, at, marks, toSeq, tokens, edges, payments)
      && AllStamped(marks, toSeq, at, next, seqNo)
      && AllAgree(plan, marks, toSeq, payments)
      && Pending(changes, next, payments)
      && Stamps(payments, seqNo)
      && Written(edges, marks, toSeq, tokens)
      && Observed(firstSeen, plan, marks, tokens, payments)
      && NotAfter(firstSeen, seqNo)
    }

    ghost predicate Enrolled()
      reads this`enrolled
    {
      forall key :: key in enrolled ==> key in tokenRefs && enrolled[key] == tokenRefs[key]
    }

    ghost predicate Core()
      reads this
    {
      Base() && Queued(closures, tokens) && Enrolled() && Owned(tokens)
    }

    // A token edge is some account's, and ends when its owner leaves.
    ghost predicate OwnedEdge(edge: Edge, last: int) {
      exists key :: TokenOf(key, edge, last)
    }

    ghost predicate TokenOf(key: nat, edge: Edge, last: int) {
      && key in accounts && key in tokenRefs && (key in owners ==> key in closeOf)
      && last == (if key in owners then closeOf[key] else MAX_EPOCH)
      && (edge == Edge(TOKEN_BOUND_TO_ACCOUNT, tokenRefs[key], accounts[key])
          || (key in owners && edge == Edge(PARTY_USES_TOKEN, owners[key], tokenRefs[key])))
    }

    ghost predicate Owned(ts: seq<TokenEdge>) {
      forall j :: 0 <= j < |ts| ==> OwnedEdge(ts[j].edge, ts[j].end)
    }

    lemma StillOwned(ts: seq<TokenEdge>, j: nat)
      requires Owned(ts) && j < |ts|
      ensures Owned(ts[j := ts[j].(emitted := true)])
    {
      hide OwnedEdge;
    }

    lemma OneMoreOwned(ts: seq<TokenEdge>, t: TokenEdge)
      requires Owned(ts) && OwnedEdge(t.edge, t.end)
      ensures Owned(ts + [t])
    {
      hide OwnedEdge;
    }

    ghost predicate TokensUpTo(epoch: int)
      reads this`edges, this`tokens, this`closures, this`payments
    {
      TokensMean(edges, tokens, closures, payments, end, epoch) && OnlyClosed(edges)
    }

    // Before finish, exactly the associations whose closing was processed are out.
    ghost predicate OutWhenClosed()
      reads this`marks, this`next
    {
      |marks| == |at.closes| && forall i :: 0 <= i < |marks| ==> (marks[i].emitted <==> at.closes[i] < next)
    }

    ghost predicate ProcessedUpTo(epoch: int)
      reads this
    {
      next <= |changes| && forall c :: 0 <= c < next ==> changes[c].epoch <= epoch
    }

    ghost predicate PendingAfter(epoch: int)
      reads this
    {
      forall c :: next <= c < |changes| ==> epoch < changes[c].epoch
    }

    ghost predicate Valid()
      reads this
    {
      && Base() && Enrolled() && Owned(tokens) && lastEpoch < end
      && (forall p :: 0 <= p < |payments| ==> start <= payments[p].epoch < end)
      && (!finished ==> Queued(closures, tokens) && OutWhenClosed() && ProcessedUpTo(lastEpoch) && TokensUpTo(lastEpoch))
      && (finished ==> Complete())
    }

    /** Everything the finished export says about the planned associations: one
        row each, live at a payment's number exactly when its tenure covers the
        payment's time, between endpoints already observed by then. */
    ghost predicate Complete()
      reads this
    {
      && |marks| == |plan| == |toSeq|
      && (forall i :: 0 <= i < |plan| ==> HasRow(edges, Planned(i)))
      && (forall j :: 0 <= j < |tokens| ==> HasRow(edges, Token(j)))
      && (forall r, q :: 0 <= r < q < |edges| ==> edges[r].source != edges[q].source)
      && (forall r :: 0 <= r < |edges| && edges[r].source.Planned? ==> RowMeansTenure(edges[r]))
      && (forall r :: 0 <= r < |edges| && edges[r].source.Token? ==> RowMeansToken(edges[r]))
    }

    // The row of a token edge is its opening, and agrees with every payment.
    ghost predicate RowMeansToken(row: EdgeRow)
      requires row.source.Token?
      reads this`tokens, this`payments
    {
      && row.source.j < |tokens| && row.fromSeq == tokens[row.source.j].fromSeq > 0
      && RowAgrees(row, tokens, payments)
    }

    /** In the finished export a token edge is live at a payment after its opening
        exactly until its owner leaves, if the owner had not left by then; without an
        owner it stays. */
    lemma TokenLiveUntilClosed(r: nat, p: nat)
      requires Valid() && finished && r < |edges| && edges[r].source.Token? && p < |payments|
      ensures edges[r].source.j < |tokens|
      ensures var t := tokens[edges[r].source.j];
              && OwnedEdge(t.edge, t.end)
              && (Lasting(t) && payments[p].at > edges[r].fromSeq ==>
                    (LiveAt(edges[r].fromSeq, edges[r].toSeq, payments[p].at) <==> payments[p].epoch < t.end))
    {
      hide Base, OwnedEdge;
      assert RowMeansToken(edges[r]);
      assert TokenAgrees(tokens[edges[r].source.j], edges[r].toSeq, payments[p]);
    }

    ghost predicate RowMeansTenure(row: EdgeRow)
      requires row.source.Planned?
      reads this
    {
      && row.source.i < |plan|
      && EndsSeen(firstSeen, plan[row.source.i].edge, row.fromSeq)
      && forall p :: 0 <= p < |payments| ==>
           (LiveAt(row.fromSeq, row.toSeq, payments[p].at) <==> Covers(plan[row.source.i], payments[p].epoch))
    }

    constructor (evidence: seq<Evidence>, start: int, end: int, accounts: map<nat, Ref>, owners: map<nat, Ref>,
                 closeOf: map<nat, int>, tokenRefs: map<nat, Ref>)
      requires start < end && accounts.Keys <= tokenRefs.Keys && owners.Keys <= closeOf.Keys
      ensures Valid() && !finished && payments == [] && seqNo == 0
      ensures this.start == start && this.end == end && this.accounts == accounts && this.evidence == evidence
      ensures Separated(plan) && Reserved() <= 2 * |plan|
    {
      var ts, cs := Plan(evidence, start, end);
      SortedChangesPlanned(ts, end);
      FewChanges(ts, end);
      this.start, this.end, this.accounts, this.owners := start, end, accounts, owners;
      this.closeOf, this.tokenRefs, this.evidence := closeOf, tokenRefs, evidence;
      plan, changes, at := ts, cs, PositionsOf(ts, end);
      lastEpoch, seqNo, finished, next := start, 0, false, 0;
      marks, toSeq, log := seq(|ts|, _ => Mark(0, false)), seq(|ts|, _ => 0), [];
      tokens, closures, enrolled, edges, payments, firstSeen := [], [], map[], [], [], map[];
    }

    ghost predicate LiveRow(r: nat, edge: Edge, at: nat)
      requires r < |edges|
      reads this`edges
    {
      var row := edges[r];
      row.source.Planned? && row.source.i < |plan| && plan[row.source.i].edge == edge && LiveAt(row.fromSeq, row.toSeq, at)
    }

    /** In the finished export an edge is live at a payment's number exactly when
        the evidence attests it at the payment's time. */
    lemma LiveExactlyWhenAttested(edge: Edge, p: nat)
      requires Valid() && finished && p < |payments|
      ensures (exists r :: 0 <= r < |edges| && LiveRow(r, edge, payments[p].at)) <==> Attested(evidence, edge, payments[p].epoch)
    {
      hide Base, Attested, LiveAt, Covers, EndsSeen;
      var epoch := payments[p].epoch;
      assert Covered(plan, edge, epoch) <==> Attested(evidence, edge, epoch) by {
        SameAsEvidence(edge, epoch);
      }
      if Covered(plan, edge, epoch) {
        var i :| 0 <= i < |plan| && plan[i].edge == edge && Covers(plan[i], epoch);
        var r :| 0 <= r < |edges| && edges[r].source == Planned(i);
        assert RowMeansTenure(edges[r]);
        assert LiveRow(r, edge, payments[p].at);
      }
      if r :| 0 <= r < |edges| && LiveRow(r, edge, payments[p].at) {
        assert RowMeansTenure(edges[r]);
      }
    }

    lemma SameAsEvidence(edge: Edge, epoch: int)
      requires Base() && start <= epoch < end
      ensures Covered(plan, edge, epoch) <==> Attested(evidence, edge, epoch)
    {
    }

    predicate Due(epoch: int)
      reads this
    {
      || (next < |changes| && changes[next].epoch <= epoch)
      || (closures != [] && closures[0].0 <= epoch)
    }

    // Everything due by the given time, in order.
    function DueBy(epoch: int): seq<Event>
      requires next <= |changes|
      reads this
    {
      Merged(changes, next, closures, epoch)
    }

    // Where the counter stands once all that is queued has been stamped.
    function Reserved(): nat
      requires next <= |changes|
      reads this
    {
      seqNo + |changes| - next + |closures|
    }

    lemma DueIsReserved(epoch: int)
      requires next <= |changes|
      ensures seqNo + |DueBy(epoch)| <= Reserved()
    {
    }

    method Tick(ghost e: Event) returns (ok: bool, s: nat)
      modifies this`seqNo, this`log
      ensures ok <==> old(seqNo) < MAX_SEQ
      ensures ok ==> s == seqNo == old(seqNo) + 1 && log == old(log) + [e]
      ensures !ok ==> seqNo == old(seqNo) && log == old(log)
    {
      if seqNo >= MAX_SEQ {
        return false, 0;
      }
      seqNo, log := seqNo + 1, log + [e];
      return true, seqNo;
    }

    /** Processes every planned change and token closing due by the given time,
        a token closing first when both are due at once. */
    method Advance(epoch: int) returns (ok: bool)
      requires Core() && !finished && OutWhenClosed() && ProcessedUpTo(epoch) && TokensUpTo(epoch) && epoch < end
      modifies this`seqNo, this`log, this`next, this`marks, this`toSeq, this`tokens, this`closures, this`edges, this`firstSeen
      ensures ok ==> Core() && OutWhenClosed() && ProcessedUpTo(epoch) && PendingAfter(epoch)
      ensures ok ==> TokensUpTo(epoch) && AllOutlast(tokens, epoch)
      ensures ok ==> forall k :: 0 <= k < |closures| ==> closures[k].0 > epoch
      ensures ok <==> old(seqNo + |DueBy(epoch)|) <= MAX_SEQ
      ensures ok ==> log == old(log + DueBy(epoch)) && Reserved() == old(Reserved())
      ensures ok ==> seqNo == old(seqNo + |DueBy(epoch)|)
      ensures !ok ==> seqNo == MAX_SEQ
      ensures ok ==> |tokens| == |old(tokens)|
    {
      hide Base, OutWhenClosed, Queued, Merged, TokensUpTo, Owned;
      ok := true;
      BaseBounds();
      while Due(epoch)
        invariant Core() && OutWhenClosed() && ProcessedUpTo(epoch) && TokensUpTo(epoch)
        invariant ok && seqNo >= old(seqNo) && |tokens| == |old(tokens)|
        invariant log + DueBy(epoch) == old(log + DueBy(epoch)) && Reserved() == old(Reserved())
        decreases |changes| - next + |closures|
      {
        BaseBounds();
        SomeDue(epoch);
        ok := AdvanceOnce(epoch);
        if !ok {
          return;
        }
      }
      BaseBounds();
      NothingDue(epoch);
      StillOutlast(epoch);
    }

    lemma StillOutlast(epoch: int)
      requires TokensUpTo(epoch) && epoch < end && forall k :: 0 <= k < |closures| ==> closures[k].0 > epoch
      ensures AllOutlast(tokens, epoch)
    {
      forall j | 0 <= j < |tokens| && !tokens[j].emitted && Lasting(tokens[j]) ensures epoch < tokens[j].end {
        assert Waits(tokens, j, closures, payments, end);
      }
    }

    lemma BaseBounds()
      requires Base()
      ensures Config() && next <= |changes| && |log| == seqNo <= MAX_SEQ
    {
    }

    lemma SomeDue(epoch: int)
      requires next <= |changes| && Due(epoch)
      ensures DueBy(epoch) != []
    {
    }

    method AdvanceOnce(epoch: int) returns (ok: bool)
      requires Core() && !finished && OutWhenClosed() && ProcessedUpTo(epoch) && Due(epoch) && TokensUpTo(epoch)
      modifies this`seqNo, this`log, this`next, this`marks, this`toSeq, this`tokens, this`closures, this`edges, this`firstSeen
      ensures ok <==> old(seqNo) < MAX_SEQ
      ensures !ok ==> seqNo == MAX_SEQ
      ensures ok ==> Core() && OutWhenClosed() && ProcessedUpTo(epoch) && TokensUpTo(epoch) && |tokens| == |old(tokens)|
      ensures ok ==> log + DueBy(epoch) == old(log + DueBy(epoch)) && Reserved() == old(Reserved())
      ensures ok ==> seqNo == old(seqNo) + 1
    {
      hide Enrolled, AllOutlast, Base, OutWhenClosed, Queued, TokensUpTo, Owned;
      if closures != [] && (next == |changes| || closures[0].0 <= changes[next].epoch) {
        ok := CloseToken(epoch);
      } else if changes[next].opening {
        ok := OpenNext();
      } else {
        ok := CloseNext(epoch);
      }
    }

    lemma NothingDue(epoch: int)
      requires Config() && next <= |changes| && !Due(epoch) && Queued(closures, tokens)
      ensures PendingAfter(epoch) && DueBy(epoch) == []
      ensures forall k :: 0 <= k < |closures| ==> closures[k].0 > epoch
    {
      assert ByEpoch(changes);
    }

    method CloseToken(ghost epoch: int) returns (ok: bool)
      requires Core() && closures != [] && closures[0].0 <= epoch && TokensUpTo(epoch)
      modifies this`seqNo, this`log, this`tokens, this`closures, this`edges
      ensures ok ==> Core() && closures == old(closures)[1..] && |tokens| == |old(tokens)|
      ensures ok ==> seqNo == old(seqNo) + 1 && log == old(log) + [TokenClosed(old(closures)[0].1)]
      ensures ok ==> TokensUpTo(epoch)
      ensures ok <==> old(seqNo) < MAX_SEQ
      ensures !ok ==> seqNo == MAX_SEQ
    {
      hide Config, Enrolled, Owned, TokensMean, OnlyClosed, AllStamped, AllAgree, Pending, Stamps, Logged, Written, Observed, PlannedBy, NotAfter, Backs, Queued;
      var s;
      var j := closures[0].1;
      QueuePop(closures, tokens);
      LogGrows(log, TokenClosed(j), at, marks, toSeq, tokens, edges, payments);
      ok, s := Tick(TokenClosed(j));
      if ok {
        ClosingMeans(edges, tokens, closures, payments, end, epoch, s);
        StillOwned(tokens, j);
        Later(old(seqNo));
        LogTokenClosed(log, at, marks, toSeq, tokens, edges, payments, j, s);
        EmitToken(edges, marks, toSeq, tokens, j, s);
        edges := edges + [EdgeRow(Token(j), tokens[j].fromSeq, s)];
        SameTokens(firstSeen, plan, marks, tokens, payments, j);
        tokens := tokens[j := tokens[j].(emitted := true)];
        closures := closures[1..];
      }
    }

    // A later sequence number keeps every bound.
    lemma Later(before: nat)
      requires AllStamped(marks, toSeq, at, next, before) && Stamps(payments, before) && NotAfter(firstSeen, before)
      requires before <= seqNo
      ensures AllStamped(marks, toSeq, at, next, seqNo) && Stamps(payments, seqNo) && NotAfter(firstSeen, seqNo)
    {
      forall i | 0 <= i < |marks| ensures Stamped(marks[i], toSeq[i], at.opens[i], at.closes[i], next, seqNo) {
        assert Stamped(marks[i], toSeq[i], at.opens[i], at.closes[i], next, before);
      }
    }

    method OpenNext() returns (ok: bool)
      requires Core() && OutWhenClosed() && next < |changes| && changes[next].opening
      modifies this`seqNo, this`log, this`next, this`marks, this`firstSeen
      ensures ok ==> Core() && OutWhenClosed() && next == old(next) + 1
      ensures ok ==> seqNo == old(seqNo) + 1 && log == old(log) + [ChangeDue(old(next))]
      ensures ok <==> old(seqNo) < MAX_SEQ
      ensures !ok ==> seqNo == MAX_SEQ
    {
      hide Owned, TokensMean, AllStamped, AllAgree, Pending, Stamps, Logged, Written, Observed, PlannedBy, NotAfter, Backs, Queued, Grows;
      var change := changes[next];
      LogGrows(log, ChangeDue(next), at, marks, toSeq, tokens, edges, payments);
      var s;
      ok, s := Tick(ChangeDue(next));
      if ok {
        var i := change.association;
        NotYetClosed(i);
        LogOpened(log, at, marks, toSeq, tokens, edges, payments, i);
        OpeningAgrees(plan, changes, at, end, next, marks, toSeq, payments, s - 1);
        OpenPlanned(edges, marks, toSeq, tokens, i, s);
        AtMost(firstSeen, s);
        ObserveEnds(firstSeen, plan[i].edge, s);
        StampsLater(payments, s - 1, s);
        StaysObserved(firstSeen, Observe(Observe(firstSeen, plan[i].edge.from, s), plan[i].edge.to, s), plan, marks, tokens, payments);
        firstSeen := Observe(Observe(firstSeen, plan[i].edge.from, s), plan[i].edge.to, s);
        OpenObserved(firstSeen, plan, marks, tokens, payments, i, s);
        marks := marks[i := marks[i].(fromSeq := s)];
        next := next + 1;
      }
    }

    lemma NotYetClosed(i: nat)
      requires Config() && OutWhenClosed() && next < |changes| && changes[next].opening && i == changes[next].association
      ensures i < |plan| == |at.closes| == |at.opens| && at.opens[i] == next && (|marks| == |plan| ==> !marks[i].emitted)
      ensures forall k :: 0 <= k < |plan| ==> at.closes[k] != next
    {
      assert ChangeIs(changes, at, next);
      ChangeFacts(plan, changes, at, end, i);
      forall k | 0 <= k < |plan| ensures at.closes[k] != next {
        OtherPositions(plan, changes, at, end, next, k);
      }
    }

    method CloseNext(ghost epoch: int) returns (ok: bool)
      requires TokensUpTo(epoch) && Core() && OutWhenClosed() && next < |changes| && !changes[next].opening
      modifies this`seqNo, this`log, this`next, this`marks, this`toSeq, this`edges
      ensures ok ==> Core() && OutWhenClosed() && next == old(next) + 1
      ensures ok ==> seqNo == old(seqNo) + 1 && log == old(log) + [ChangeDue(old(next))]
      ensures ok ==> TokensUpTo(epoch)
      ensures ok <==> old(seqNo) < MAX_SEQ
      ensures !ok ==> seqNo == MAX_SEQ
    {
      hide Owned, TokensMean, AllStamped, AllAgree, Pending, Stamps, Logged, Written, Observed, PlannedBy, NotAfter, Backs, Queued, Grows;
      var change := changes[next];
      LogGrows(log, ChangeDue(next), at, marks, toSeq, tokens, edges, payments);
      var s;
      ok, s := Tick(ChangeDue(next));
      if ok {
        var i := change.association;
        ClosingAgrees(plan, changes, at, end, next, marks, toSeq, payments, s - 1);
        OnlyThisCloses(i);
        LogClosed(log, at, marks, toSeq, tokens, edges, payments, i, s);
        // The source refuses a closing before its opening; none is ever met.
        assert marks[i].fromSeq != 0;
        EmitPlanned(edges, marks, toSeq, tokens, i, s);
        MeansPlanned(edges, EdgeRow(Planned(i), marks[i].fromSeq, s), tokens, closures, payments, end, epoch);
        edges := edges + [EdgeRow(Planned(i), marks[i].fromSeq, s)];
        AtMost(firstSeen, s);
        StampsLater(payments, s - 1, s);
        SameMarks(firstSeen, plan, marks, tokens, payments, i);
        EmissionKeepsStamps(marks, toSeq[i := s], at, next + 1, s, plan, payments, i);
        toSeq := toSeq[i := s];
        marks := marks[i := marks[i].(emitted := true)];
        next := next + 1;
      }
    }

    lemma OnlyThisCloses(i: nat)
      requires Config() && OutWhenClosed() && next < |changes| && !changes[next].opening && i == changes[next].association
      ensures i < |plan| == |at.closes| && at.closes[i] == next && (|marks| == |plan| ==> !marks[i].emitted)
      ensures forall k :: 0 <= k < |plan| && k != i ==> at.closes[k] != next
    {
      assert ChangeIs(changes, at, next);
      forall k | 0 <= k < |plan| && k != i ensures at.closes[k] != next {
        OtherPositions(plan, changes, at, end, next, k);
      }
    }

    // A closing change of a token is queued only when it falls inside the window.
    function Queue(closures: seq<(int, nat)>, last: int, j: nat): seq<(int, nat)> {
      if last < end then Enqueue(closures, (last, j)) else closures
    }

    method OpenTokenEdge(edge: Edge, epoch: int, last: int) returns (ok: bool)
      requires Core() && TokensUpTo(epoch) && AllOutlast(tokens, epoch) && OwnedEdge(edge, last)
      modifies this`seqNo, this`log, this`tokens, this`closures, this`firstSeen
      ensures ok ==> Core() && seqNo == old(seqNo) + 1 && log == old(log) + [TokenOpened(|old(tokens)|)]
      ensures ok ==> tokens == old(tokens) + [TokenEdge(edge, epoch, last, seqNo, false)]
      ensures ok ==> TokensUpTo(epoch) && AllOutlast(tokens, epoch)
      ensures ok ==> closures == Queue(old(closures), last, |old(tokens)|)
      ensures ok <==> old(seqNo) < MAX_SEQ
      ensures !ok ==> seqNo == MAX_SEQ
    {
      hide Config, Enrolled, Owned, OwnedEdge, TokensMean, OnlyClosed, AllOutlast, AllStamped, AllAgree, Pending, Stamps, Logged, Written, Observed, PlannedBy, NotAfter, Backs, Queued, Grows, EndsSeen, Enqueue;
      LogGrows(log, TokenOpened(|tokens|), at, marks, toSeq, tokens, edges, payments);
      var s;
      ok, s := Tick(TokenOpened(|tokens|));
      if ok {
        ghost var paid := payments;
        assert Stamps(paid, s - 1);
        Later(s - 1);
        ObserveEnds(firstSeen, edge, s);
        var seen := Observe(Observe(firstSeen, edge.from, s), edge.to, s);
        StaysObserved(firstSeen, seen, plan, marks, tokens, payments);
        firstSeen := seen;
        var t := TokenEdge(edge, epoch, last, s, false);
        OpeningMeans(edges, tokens, closures, payments, end, epoch, t);
        OneMoreOwned(tokens, t);
        OpenToken(edges, marks, toSeq, tokens, t);
        LogTokenOpened(log, at, marks, toSeq, tokens, edges, payments, t);
        QueuePush(closures, tokens, t);
        TokenObserved(firstSeen, plan, marks, tokens, payments, t);
        if last < end {
          closures := Enqueue(closures, (last, |tokens|));
        }
        tokens := tokens + [t];
      }
    }

    // A token closes with its owner's account, and never when nobody owns it.
    function LastOf(key: nat): int
      requires Config()
    {
      if key in owners then closeOf[key] else MAX_EPOCH
    }

    // A new token is bound to its account, and used by the owner if there is one.
    function TokenEdges(key: nat, epoch: int, seqNo: nat): (r: seq<TokenEdge>)
      requires Config() && key in accounts
    {
      [TokenEdge(Edge(TOKEN_BOUND_TO_ACCOUNT, tokenRefs[key], accounts[key]), epoch, LastOf(key), seqNo + 1, false)]
      + if key in owners then
          [TokenEdge(Edge(PARTY_USES_TOKEN, owners[key], tokenRefs[key]), epoch, LastOf(key), seqNo + 2, false)]
        else []
    }

    function EnrollCost(key: nat): nat
      reads this`enrolled
    {
      if key in enrolled then 0 else if key in owners then 2 else 1
    }

    method EnrollToken(key: nat, epoch: int) returns (ok: bool)
      requires Core() && key in accounts
      modifies this`seqNo, this`log, this`tokens, this`closures, this`firstSeen, this`enrolled
      requires TokensUpTo(epoch) && AllOutlast(tokens, epoch)
      ensures ok ==> Core() && TokensUpTo(epoch) && AllOutlast(tokens, epoch)
      ensures ok <==> old(seqNo + EnrollCost(key)) <= MAX_SEQ
      ensures !ok ==> seqNo == MAX_SEQ
      ensures ok ==> log == old(log) + Openings(|old(tokens)|, old(EnrollCost(key)))
      ensures ok ==> seqNo == old(seqNo + EnrollCost(key)) && Reserved() <= old(Reserved()) + 4
      ensures ok ==> |tokens| == |old(tokens)| + old(EnrollCost(key))
      ensures key in old(enrolled) ==> unchanged(this)
      ensures key !in old(enrolled) ==> enrolled == old(enrolled)[key := tokenRefs[key]]
      ensures ok && key !in old(enrolled) ==> IsEnrolled(key, epoch, old(tokens), old(closures), old(seqNo))
    {
      hide Owned, TokensUpTo, AllOutlast, Base, Queued, Enrolled, IsEnrolled;
      BaseBounds();
      if key in enrolled {
        return true;
      }
      ok := EnrollNew(key, epoch);
    }

    // The edges of a newly enrolled token, and their closings.
    ghost predicate IsEnrolled(key: nat, epoch: int, tokens0: seq<TokenEdge>, closures0: seq<(int, nat)>, seqNo0: nat)
      requires Config() && key in accounts
      reads this`tokens, this`closures
    {
      var once := Queue(closures0, LastOf(key), |tokens0|);
      && tokens == tokens0 + TokenEdges(key, epoch, seqNo0)
      && closures == if key in owners then Queue(once, LastOf(key), |tokens0| + 1) else once
    }

    method EnrollNew(key: nat, epoch: int) returns (ok: bool)
      requires Core() && key in accounts && key !in enrolled
      modifies this`seqNo, this`log, this`tokens, this`closures, this`firstSeen, this`enrolled
      requires TokensUpTo(epoch) && AllOutlast(tokens, epoch)
      ensures ok ==> Core() && TokensUpTo(epoch) && AllOutlast(tokens, epoch)
      ensures ok <==> old(seqNo + EnrollCost(key)) <= MAX_SEQ
      ensures !ok ==> seqNo == MAX_SEQ
      ensures enrolled == old(enrolled)[key := tokenRefs[key]]
      ensures ok ==> log == old(log) + Openings(|old(tokens)|, old(EnrollCost(key)))
      ensures ok ==> seqNo == old(seqNo + EnrollCost(key)) && |closures| <= |old(closures)| + 2
      ensures ok ==> |tokens| == |old(tokens)| + old(EnrollCost(key))
      ensures ok ==> IsEnrolled(key, epoch, old(tokens), old(closures), old(seqNo))
    {
      hide Owned, TokensUpTo, AllOutlast, Base, Queued, Queue;
      BaseBounds();
      var token := tokenRefs[key];
      enrolled := enrolled[key := token];
      var last := if key in owners then closeOf[key] else MAX_EPOCH;
      QueueLonger(closures, last, |tokens|);
      assert TokenOf(key, Edge(TOKEN_BOUND_TO_ACCOUNT, token, accounts[key]), last);
      ok := OpenTokenEdge(Edge(TOKEN_BOUND_TO_ACCOUNT, token, accounts[key]), epoch, last);
      if ok && key in owners {
        QueueLonger(closures, last, |tokens|);
        assert TokenOf(key, Edge(PARTY_USES_TOKEN, owners[key], token), last);
        ok := OpenTokenEdge(Edge(PARTY_USES_TOKEN, owners[key], token), epoch, last);
      }
    }

    lemma QueueLonger(closures: seq<(int, nat)>, last: int, j: nat)
      ensures |closures| <= |Queue(closures, last, j)| <= |closures| + 1
    {
      EnqueueLength(closures, (last, j));
    }

    method ObserveAll(parts: seq<Part>, at: nat)
      requires NotAfter(firstSeen, at)
      modifies this`firstSeen
      ensures NotAfter(firstSeen, at) && Grows(old(firstSeen), firstSeen)
      ensures forall e :: e in parts ==> SeenBy(firstSeen, e.vertex, at)
    {
      for i := 0 to |parts|
        invariant NotAfter(firstSeen, at) && Grows(old(firstSeen), firstSeen)
        invariant forall k :: 0 <= k < i ==> SeenBy(firstSeen, parts[k].vertex, at)
      {
        ObserveGrows(firstSeen, parts[i].vertex, at);
        firstSeen := Observe(firstSeen, parts[i].vertex, at);
      }
    }

    // Who takes part in a payment: its accounts, the tokens of a Zelle payment,
    // and the device and address when they are known.
    predicate TakesPart(tx: Txn, role: Role, vertex: Ref) {
      match role
      case FromAccount => tx.source in accounts && vertex == accounts[tx.source]
      case ToAccount => tx.target in accounts && vertex == accounts[tx.target]
      case FromToken => tx.zelle && tx.source in tokenRefs && vertex == tokenRefs[tx.source]
      case ToToken => tx.zelle && tx.target in tokenRefs && vertex == tokenRefs[tx.target]
      case UsedDevice => tx.device == Some(vertex)
      case UsedIp => tx.ip == Some(vertex)
    }

    // The payment has exactly those parts, each role once.
    ghost predicate Records(p: Payment, tx: Txn) {
      && p.epoch == tx.epoch
      && (forall role, vertex :: Part(role, vertex) in p.parts <==> TakesPart(tx, role, vertex))
      && forall i, j :: 0 <= i < j < |p.parts| ==> p.parts[i].role != p.parts[j].role
    }

    // Of the given roles exactly the right parts, each role once.
    ghost predicate Lists(parts: seq<Part>, roles: set<Role>, tx: Txn) {
      && (forall role, vertex :: Part(role, vertex) in parts <==> role in roles && TakesPart(tx, role, vertex))
      && (forall i :: 0 <= i < |parts| ==> parts[i].role in roles)
      && forall i, j :: 0 <= i < j < |parts| ==> parts[i].role != parts[j].role
    }

    lemma ListsNext(parts: seq<Part>, roles: set<Role>, tx: Txn, role: Role, vertex: Ref)
      requires Lists(parts, roles, tx) && role !in roles
      requires forall v :: TakesPart(tx, role, v) <==> v == vertex
      ensures Lists(parts + [Part(role, vertex)], roles + {role}, tx)
    {
      hide TakesPart;
      var more := parts + [Part(role, vertex)];
      forall r, v ensures Part(r, v) in more <==> r in roles + {role} && TakesPart(tx, r, v) {
        assert Part(r, v) in more <==> Part(r, v) in parts || (r == role && v == vertex);
      }
    }

    lemma ListsSkip(parts: seq<Part>, roles: set<Role>, tx: Txn, role: Role)
      requires Lists(parts, roles, tx) && forall v :: !TakesPart(tx, role, v)
      ensures Lists(parts, roles + {role}, tx)
    {
      hide TakesPart;
    }

    lemma AllRoles(p: Payment, tx: Txn)
      requires Lists(p.parts, {FromAccount, ToAccount, FromToken, ToToken, UsedDevice, UsedIp}, tx) && p.epoch == tx.epoch
      ensures Records(p, tx)
    {
      hide TakesPart;
      forall role, vertex ensures Part(role, vertex) in p.parts <==> TakesPart(tx, role, vertex) {
        match role
        case FromAccount => case ToAccount => case FromToken => case ToToken => case UsedDevice => case UsedIp =>
      }
    }

    lemma NoParts(tx: Txn)
      ensures Lists([], {}, tx)
    {
    }

    method Participants(tx: Txn) returns (parts: seq<Part>)
      requires tx.source in accounts && tx.target in accounts && Enrolled()
      requires tx.zelle ==> tx.source in enrolled && tx.target in enrolled
      ensures Lists(parts, {FromAccount, ToAccount, FromToken, ToToken, UsedDevice, UsedIp}, tx)
    {
      hide Lists;
      NoParts(tx);
      ListsNext([], {}, tx, FromAccount, accounts[tx.source]);
      parts := [] + [Part(FromAccount, accounts[tx.source])];
      ListsNext(parts, {} + {FromAccount}, tx, ToAccount, accounts[tx.target]);
      parts := parts + [Part(ToAccount, accounts[tx.target])];
      ghost var roles := {} + {FromAccount} + {ToAccount};
      if tx.zelle {
        ListsNext(parts, roles, tx, FromToken, enrolled[tx.source]);
        parts := parts + [Part(FromToken, enrolled[tx.source])];
        ListsNext(parts, roles + {FromToken}, tx, ToToken, enrolled[tx.target]);
        parts := parts + [Part(ToToken, enrolled[tx.target])];
      } else {
        ListsSkip(parts, roles, tx, FromToken);
        ListsSkip(parts, roles + {FromToken}, tx, ToToken);
      }
      roles := roles + {FromToken} + {ToToken};
      if tx.device.Some? {
        ListsNext(parts, roles, tx, UsedDevice, tx.device.value);
        parts := parts + [Part(UsedDevice, tx.device.value)];
      } else {
        ListsSkip(parts, roles, tx, UsedDevice);
      }
      if tx.ip.Some? {
        ListsNext(parts, roles + {UsedDevice}, tx, UsedIp, tx.ip.value);
        parts := parts + [Part(UsedIp, tx.ip.value)];
      } else {
        ListsSkip(parts, roles + {UsedDevice}, tx, UsedIp);
      }
      assert roles + {UsedDevice} + {UsedIp} == {FromAccount, ToAccount, FromToken, ToToken, UsedDevice, UsedIp};
    }

    // The numbers a payment takes: its own, the arrival of a Zelle payment, and
    // those of the tokens it enrols.
    function Cost(tx: Txn): nat
      reads this`enrolled
    {
      if tx.zelle then
        2 + EnrollCost(tx.source) + (if tx.target == tx.source then 0 else EnrollCost(tx.target))
      else 1
    }

    // The newest payment is this one: its number is the last, or the last but one
    // if Zelle, and everyone who took part has been observed by then.
    ghost predicate IsPosted(tx: Txn, before: seq<Payment>)
      reads this
    {
      && |payments| == |before| + 1 && payments[..|before|] == before
      && var p := payments[|before|];
      && p.at + (if tx.zelle then 1 else 0) == seqNo && p.epoch == tx.epoch && Records(p, tx)
      && forall e :: e in p.parts ==> SeenBy(firstSeen, e.vertex, p.at)
    }

    lemma TokenRowsBefore(log: seq<Event>, at: Positions, marks: seq<Mark>, toSeq: seq<nat>, tokens: seq<TokenEdge>,
                          edges: seq<EdgeRow>, payments: seq<Payment>, seqNo: nat)
      requires Logged(log, at, marks, toSeq, tokens, edges, payments) && |log| == seqNo
      ensures forall r :: 0 <= r < |edges| && edges[r].source.Token? ==> edges[r].toSeq <= seqNo
    {
      forall r | 0 <= r < |edges| && edges[r].source.Token? ensures edges[r].toSeq <= seqNo {
        assert RowNamed(log, edges[r]);
      }
    }

    // The numbers of the p-th payment itself.
    function Payments(tx: Txn, p: nat): seq<Event> {
      if tx.zelle then [Paid(p), Arrived(p)] else [Paid(p)]
    }

    // Everything a payment gives a number to, in order.
    function EventsOf(tx: Txn): (r: seq<Event>)
      requires next <= |changes|
      reads this
      ensures |r| == |DueBy(tx.epoch)| + Cost(tx)
    {
      DueBy(tx.epoch) + Openings(|tokens|, Cost(tx) - (if tx.zelle then 2 else 1)) + Payments(tx, |payments|)
    }

    predicate Refused(tx: Txn)
      reads this
    {
      Rejects(tx, NotChronological) || Rejects(tx, Unregistered) || Rejects(tx, BadAmount)
    }

    predicate Rejects(tx: Txn, outcome: Outcome)
      reads this
    {
      match outcome
      case NotChronological => tx.epoch < lastEpoch || tx.epoch < start || tx.epoch >= end
      case Unregistered => tx.source !in accounts || tx.target !in accounts
      case BadAmount => tx.amount == Infinite || (tx.amount.Finite? && tx.amount.value < 0.0)
      case _ => false
    }

    /** One payment: everything due by its time is processed first, then it takes
        its own number (a Zelle payment one more for its arrival). */
    method Post(tx: Txn) returns (r: Outcome)
      requires Valid() && !finished
      modifies this
      ensures r in {Done, NotChronological, Unregistered, BadAmount, SequenceExhausted}
      ensures r in {NotChronological, Unregistered, BadAmount} <==> old(Refused(tx))
      ensures old(Refused(tx)) ==> old(Rejects(tx, r)) && unchanged(this)
      ensures !old(Refused(tx)) ==> (r == Done <==> old(seqNo + |EventsOf(tx)|) <= MAX_SEQ)
      ensures r == SequenceExhausted ==> seqNo == MAX_SEQ
      ensures r == Done ==> Valid() && !finished && lastEpoch == tx.epoch
      ensures r == Done ==> log == old(log + EventsOf(tx)) && Reserved() <= old(Reserved()) + 10
      ensures r == Done ==> IsPosted(tx, old(payments))
    {
      hide AllStamped, AllAgree, Pending, Stamps, Logged, Written, Observed, PlannedBy, NotAfter, Backs, Queued, Complete;
      if tx.epoch < lastEpoch || tx.epoch < start || tx.epoch >= end {
        return NotChronological;
      }
      if tx.source !in accounts || tx.target !in accounts {
        return Unregistered;
      }
      if tx.amount == Infinite || (tx.amount.Finite? && tx.amount.value < 0.0) {
        return BadAmount;
      }
      r := Record(tx);
    }

    // The checked payment: advance, enrol the tokens of a Zelle payment, stamp.
    method Record(tx: Txn) returns (r: Outcome)
      requires Valid() && !finished && lastEpoch <= tx.epoch && start <= tx.epoch < end
      requires tx.source in accounts && tx.target in accounts
      modifies this
      ensures r == if old(seqNo + |EventsOf(tx)|) <= MAX_SEQ then Done else SequenceExhausted
      ensures r == SequenceExhausted ==> seqNo == MAX_SEQ
      ensures r == Done ==> Valid() && !finished && lastEpoch == tx.epoch
      ensures r == Done ==> log == old(log + EventsOf(tx)) && Reserved() <= old(Reserved()) + 10
      ensures r == Done ==> IsPosted(tx, old(payments))
    {
      hide Owned, TokensUpTo, AllOutlast, Base, OutWhenClosed, Queued, Complete, SeenBy, Merged, Openings, Payments, Records;
      MeansUpTo(tx.epoch);
      var ok := Advance(tx.epoch);
      if !ok {
        return SequenceExhausted;
      }
      lastEpoch := tx.epoch;
      if tx.zelle {
        ok := EnrollBoth(tx);
        if !ok {
          return SequenceExhausted;
        }
      }
      FourParts(old(log), old(DueBy(tx.epoch)), Openings(|old(tokens)|, old(Cost(tx)) - if tx.zelle then 2 else 1),
                Payments(tx, |payments|));
      ok := Stamp(tx);
      r := if ok then Done else SequenceExhausted;
    }

    lemma MeansUpTo(epoch: int)
      requires TokensUpTo(lastEpoch) && lastEpoch <= epoch
      ensures TokensUpTo(epoch)
    {
      hide TokensMean;
      MeansLater(edges, tokens, closures, payments, end, lastEpoch, epoch);
    }

    method EnrollBoth(tx: Txn) returns (ok: bool)
      requires TokensUpTo(tx.epoch) && AllOutlast(tokens, tx.epoch) && Core() && tx.zelle && tx.source in accounts && tx.target in accounts
      modifies this`seqNo, this`log, this`tokens, this`closures, this`firstSeen, this`enrolled
      ensures ok ==> Core() && TokensUpTo(tx.epoch) && AllOutlast(tokens, tx.epoch) && tx.source in enrolled && tx.target in enrolled
      ensures ok <==> old(seqNo + Cost(tx) - 2) <= MAX_SEQ
      ensures !ok ==> seqNo == MAX_SEQ
      ensures ok ==> seqNo == old(seqNo + Cost(tx) - 2) && Reserved() <= old(Reserved()) + 8
      ensures ok ==> log == old(log) + Openings(|old(tokens)|, old(Cost(tx)) - 2)
    {
      hide Owned, TokensUpTo, AllOutlast, Base, Queued, Enrolled, Openings;
      ok := EnrollToken(tx.source, tx.epoch);
      if ok {
        ghost var n := |tokens|;
        ok := EnrollToken(tx.target, tx.epoch);
        OpeningsTwice(n - old(EnrollCost(tx.source)), old(EnrollCost(tx.source)), if ok then |tokens| - n else 0);
      }
    }

    method Stamp(tx: Txn) returns (ok: bool)
      requires TokensUpTo(tx.epoch) && AllOutlast(tokens, tx.epoch) && Core() && ProcessedUpTo(tx.epoch) && PendingAfter(tx.epoch) && tx.epoch < end
      requires tx.source in accounts && tx.target in accounts
      requires tx.zelle ==> tx.source in enrolled && tx.target in enrolled
      modifies this`seqNo, this`log, this`payments, this`firstSeen
      ensures ok ==> Core() && TokensUpTo(tx.epoch)
      ensures ok <==> old(seqNo) + (if tx.zelle then 2 else 1) <= MAX_SEQ
      ensures !ok ==> seqNo == MAX_SEQ
      ensures ok ==> seqNo == old(seqNo) + if tx.zelle then 2 else 1
      ensures ok ==> IsPosted(tx, old(payments))
      ensures ok ==> log == old(log) + Payments(tx, |old(payments)|)
    {
      hide Owned, TokensMean, AllOutlast, AllStamped, AllAgree, Pending, Stamps, Logged, Written, Observed, PlannedBy, NotAfter, Backs, Queued, Grows, SeenBy, Records, Lists, Enrolled;
      ghost var before, logged := seqNo, log;
      LogGrows(log, Paid(|payments|), at, marks, toSeq, tokens, edges, payments);
      var s;
      ok, s := Tick(Paid(|payments|));
      if !ok {
        return;
      }
      if tx.zelle {
        LogGrows(log, Arrived(|payments|), at, marks, toSeq, tokens, edges, payments);
        var arrival;
        ok, arrival := Tick(Arrived(|payments|));
        if !ok {
          return;
        }
      }
      var parts := Participants(tx);
      var p := Payment(s, tx.epoch, parts);
      AllRoles(p, tx);
      TokenRowsBefore(logged, at, marks, toSeq, tokens, edges, payments, before);
      MeansPaid(edges, tokens, closures, payments, end, p);
      AtMost(firstSeen, s);
      Later(before);
      ghost var seen := firstSeen;
      ObserveAll(parts, s);
      LogPaid(log, at, marks, toSeq, tokens, edges, payments, p);
      PaymentAgrees(plan, changes, at, end, next, marks, toSeq, payments, before, p);
      PaymentObserved(seen, firstSeen, plan, marks, tokens, payments, p);
      NotAfterLater(firstSeen, s, seqNo);
      StampsSnoc(payments, p, seqNo);
      payments := payments + [p];
    }

    /** Posts a batch in order. The first payment that is refused stops it and
        leaves the export consistent; an exhausted sequence ends the export. */
    method Append(batch: seq<Txn>) returns (r: Outcome)
      requires Valid()
      modifies this
      ensures old(finished) <==> r == AfterFinish
      ensures r == SequenceExhausted ==> seqNo == MAX_SEQ
      ensures old(Reserved()) + 10 * |batch| <= MAX_SEQ ==> r != SequenceExhausted
      ensures r != SequenceExhausted ==> Valid() && finished == old(finished)
      ensures r != SequenceExhausted ==> old(payments) <= payments
      ensures r != SequenceExhausted ==> |payments| <= |old(payments)| + |batch|
      ensures r == Done ==> |payments| == |old(payments)| + |batch|
      ensures r in {NotChronological, Unregistered, BadAmount} ==>
        |payments| < |old(payments)| + |batch| && Rejects(batch[|payments| - |old(payments)|], r)
      ensures r != SequenceExhausted ==> Reserved() <= old(Reserved()) + 10 * (|payments| - |old(payments)|)
      ensures r != SequenceExhausted ==>
        forall k :: |old(payments)| <= k < |payments| ==> Records(payments[k], batch[k - |old(payments)|])
    {
      hide Records, Merged, Valid;
      ValidBounds();
      if finished {
        return AfterFinish;
      }
      for i := 0 to |batch|
        invariant Valid() && !finished && next <= |changes|
        invariant |payments| == |old(payments)| + i && old(payments) <= payments
        invariant Reserved() <= old(Reserved()) + 10 * i
        invariant forall k :: |old(payments)| <= k < |payments| ==> Records(payments[k], batch[k - |old(payments)|])
      {
        DueIsReserved(batch[i].epoch);
        CostAtMost(batch[i]);
        r := Post(batch[i]);
        if r == SequenceExhausted {
          return;
        }
        ValidBounds();
        if r != Done {
          return;
        }
      }
      r := Done;
    }

    lemma ValidBounds()
      requires Valid()
      ensures next <= |changes|
    {
    }

    lemma CostAtMost(tx: Txn)
      ensures Cost(tx) <= 6
    {
    }

    lemma AllOpened()
      requires Base() && OutWhenClosed() && PendingAfter(end - 1)
      ensures |marks| == |plan| == |toSeq|
      ensures forall k :: 0 <= k < |marks| ==> marks[k].fromSeq > 0 && (!marks[k].emitted ==> toSeq[k] == 0)
    {
      hide ByEpoch, Written, Observed, AllAgree;
      forall k | 0 <= k < |marks| ensures marks[k].fromSeq > 0 && (!marks[k].emitted ==> toSeq[k] == 0) {
        ChangeFacts(plan, changes, at, end, k);
        assert Stamped(marks[k], toSeq[k], at.opens[k], at.closes[k], next, seqNo);
        assert InWindow(plan[k], start, end);
      }
    }

    lemma TokenRowMeans(r: nat)
      requires Base() && TokensMean(edges, tokens, closures, payments, end, end - 1) && r < |edges| && edges[r].source.Token?
      ensures RowMeansToken(edges[r])
    {
      hide RowAgrees;
      assert RowTrue(edges[r], marks, toSeq, tokens);
    }

    lemma ShowComplete()
      requires Base() && forall k :: 0 <= k < |marks| ==> marks[k].emitted && marks[k].fromSeq > 0
      requires forall j :: 0 <= j < |tokens| ==> tokens[j].emitted
      requires TokensMean(edges, tokens, closures, payments, end, end - 1)
      ensures Complete()
    {
      hide PlannedBy, HasRow, AllStamped, Pending, Stamps, EndsSeen, RowMeansToken, TokensMean;
      forall r | 0 <= r < |edges| && edges[r].source.Token? ensures RowMeansToken(edges[r]) {
        TokenRowMeans(r);
      }
      
      forall r | 0 <= r < |edges| && edges[r].source.Planned? ensures RowMeansTenure(edges[r]) {
        assert RowTrue(edges[r], marks, toSeq, tokens);
        var i := edges[r].source.i;
        forall p | 0 <= p < |payments|
          ensures LiveAt(edges[r].fromSeq, edges[r].toSeq, payments[p].at) <==> Covers(plan[i], payments[p].epoch)
        {
          assert Agrees(plan[i], marks[i], toSeq[i], payments[p]);
        }
      }
    }

    // Every planned association still open is written with no end.
    method WritePlanned()
      requires TokensMean(edges, tokens, closures, payments, end, end - 1) && Base() && |marks| == |plan| == |toSeq|
      requires forall k :: 0 <= k < |marks| ==> marks[k].fromSeq > 0
      requires forall k :: 0 <= k < |marks| && !marks[k].emitted ==> toSeq[k] == 0
      modifies this`edges, this`marks
      ensures TokensMean(edges, tokens, closures, payments, end, end - 1) && Base() && |marks| == |plan| == |toSeq|
      ensures forall k :: 0 <= k < |marks| ==> marks[k].emitted && marks[k].fromSeq > 0
    {
      hide Owned, TokensMean, AllStamped, AllAgree, Pending, Stamps, Logged, Written, Observed, PlannedBy, NotAfter, Backs, Queued, HasRow;
      for i := 0 to |marks|
        invariant TokensMean(edges, tokens, closures, payments, end, end - 1) && Base() && |marks| == |plan| == |toSeq|
        invariant forall k :: 0 <= k < |marks| ==> marks[k].fromSeq > 0 && (k < i ==> marks[k].emitted)
        invariant forall k :: 0 <= k < |marks| && !marks[k].emitted ==> toSeq[k] == 0
      {
        if marks[i].fromSeq != 0 && !marks[i].emitted {
          EmitPlanned(edges, marks, toSeq, tokens, i, 0);
          LogClosed(log, at, marks, toSeq, tokens, edges, payments, i, 0);
          MeansPlanned(edges, EdgeRow(Planned(i), marks[i].fromSeq, 0), tokens, closures, payments, end, end - 1);
          edges := edges + [EdgeRow(Planned(i), marks[i].fromSeq, 0)];
          EmissionKeepsStamps(marks, toSeq, at, next, seqNo, plan, payments, i);
          SameMarks(firstSeen, plan, marks, tokens, payments, i);
          assert toSeq[i := 0] == toSeq;
          marks := marks[i := marks[i].(emitted := true)];
        }
      }
    }

    method WriteTokens()
      requires TokensMean(edges, tokens, closures, payments, end, end - 1) && Owned(tokens) && Base() && |marks| == |plan|
      requires forall k :: 0 <= k < |marks| ==> marks[k].emitted && marks[k].fromSeq > 0
      modifies this`edges, this`tokens
      ensures TokensMean(edges, tokens, closures, payments, end, end - 1) && Owned(tokens) && Base() && |marks| == |plan|
      ensures forall k :: 0 <= k < |tokens| ==> tokens[k].emitted
    {
      hide Owned, TokensMean, AllStamped, AllAgree, Pending, Stamps, Logged, Written, Observed, PlannedBy, NotAfter, Backs, Queued, HasRow;
      ghost var tokenCount := |tokens|;
      for j := 0 to |tokens|
        invariant TokensMean(edges, tokens, closures, payments, end, end - 1) && Owned(tokens) && Base() && |marks| == |plan| && |tokens| == tokenCount
        invariant forall k :: 0 <= k < j ==> tokens[k].emitted
      {
        if !tokens[j].emitted {
          MeansWritten(edges, tokens, closures, closures, payments, end, end - 1, j, 0);
          StillOwned(tokens, j);
          EmitToken(edges, marks, toSeq, tokens, j, 0);
          LogTokenClosed(log, at, marks, toSeq, tokens, edges, payments, j, 0);
          edges := edges + [EdgeRow(Token(j), tokens[j].fromSeq, 0)];
          SameTokens(firstSeen, plan, marks, tokens, payments, j);
          tokens := tokens[j := tokens[j].(emitted := true)];
        }
      }
    }

    /** Processes what falls due inside the window, then writes every open
        association once with no end. */
    method Finish() returns (r: Outcome)
      requires Valid()
      modifies this
      ensures r == if old(finished || seqNo + |DueBy(end - 1)| <= MAX_SEQ) then Done else SequenceExhausted
      ensures old(Reserved()) <= MAX_SEQ ==> r == Done
      ensures r == SequenceExhausted ==> seqNo == MAX_SEQ
      ensures r == Done ==> Valid() && finished && payments == old(payments)
      ensures r == Done ==> log == if old(finished) then old(log) else old(log + DueBy(end - 1))
    {
      hide Owned, TokensMean, AllOutlast, AllStamped, AllAgree, Pending, Stamps, Logged, Written, Observed, PlannedBy, NotAfter, Backs, Queued, HasRow;
      if finished {
        return Done;
      }
      DueIsReserved(end - 1);
      MeansUpTo(end - 1);
      var ok := Advance(end - 1);
      if !ok {
        return SequenceExhausted;
      }
      AllOpened();
      WritePlanned();
      WriteTokens();
      finished := true;
      ShowComplete();
      r := Done;
    }
  }

  const TOKEN_BOUND_TO_ACCOUNT: nat := 100
  const PARTY_USES_TOKEN: nat := 101
  const MAX_EPOCH: int := TWO64 / 2 - 1

  lemma TokenObserved(firstSeen: map<Ref, nat>, plan: seq<Tenure>, marks: seq<Mark>, tokens: seq<TokenEdge>, payments: seq<Payment>, t: TokenEdge)
    requires Observed(firstSeen, plan, marks, tokens, payments) && EndsSeen(firstSeen, t.edge, t.fromSeq)
    ensures Observed(firstSeen, plan, marks, tokens + [t], payments)
  {
  }

  lemma PaymentObserved(before: map<Ref, nat>, after: map<Ref, nat>, plan: seq<Tenure>, marks: seq<Mark>,
                        tokens: seq<TokenEdge>, payments: seq<Payment>, p: Payment)
    requires Observed(before, plan, marks, tokens, payments) && Grows(before, after)
    requires forall e :: e in p.parts ==> SeenBy(after, e.vertex, p.at)
    ensures Observed(after, plan, marks, tokens, payments + [p])
  {
    StaysObserved(before, after, plan, marks, tokens, payments);
  }

  lemma NotAfterLater(firstSeen: map<Ref, nat>, s: nat, t: nat)
    requires NotAfter(firstSeen, s) && s <= t
    ensures NotAfter(firstSeen, t)
  {
  }

  lemma StampsSnoc(payments: seq<Payment>, p: Payment, s: nat)
    requires Stamps(payments, s) && p.at <= s
    ensures Stamps(payments + [p], s)
  {
  }

  lemma AtMost(firstSeen: map<Ref, nat>, s: nat)
    requires s > 0 && NotAfter(firstSeen, s - 1)
    ensures NotAfter(firstSeen, s)
  {
  }

  lemma StampsLater(payments: seq<Payment>, s: nat, t: nat)
    requires Stamps(payments, s) && s <= t
    ensures Stamps(payments, t)
  {
  }

  lemma SameTokens(firstSeen: map<Ref, nat>, plan: seq<Tenure>, marks: seq<Mark>, tokens: seq<TokenEdge>, payments: seq<Payment>, j: nat)
    requires Observed(firstSeen, plan, marks, tokens, payments) && j < |tokens|
    ensures Observed(firstSeen, plan, marks, tokens[j := tokens[j].(emitted := true)], payments)
  {
  }

  lemma SameMarks(firstSeen: map<Ref, nat>, plan: seq<Tenure>, marks: seq<Mark>, tokens: seq<TokenEdge>, payments: seq<Payment>, i: nat)
    requires Observed(firstSeen, plan, marks, tokens, payments) && i < |marks|
    ensures Observed(firstSeen, plan, marks[i := marks[i].(emitted := true)], tokens, payments)
  {
  }

  lemma OpenObserved(firstSeen: map<Ref, nat>, plan: seq<Tenure>, marks: seq<Mark>, tokens: seq<TokenEdge>, payments: seq<Payment>, i: nat, s: nat)
    requires Observed(firstSeen, plan, marks, tokens, payments) && i < |marks| == |plan| && EndsSeen(firstSeen, plan[i].edge, s)
    ensures Observed(firstSeen, plan, marks[i := marks[i].(fromSeq := s)], tokens, payments)
  {
  }

  lemma EmissionKeepsStamps(marks: seq<Mark>, toSeq: seq<nat>, at: Positions, next: nat, seqNo: nat,
                            plan: seq<Tenure>, payments: seq<Payment>, i: nat)
    requires AllStamped(marks, toSeq, at, next, seqNo) && AllAgree(plan, marks, toSeq, payments) && i < |marks|
    ensures AllStamped(marks[i := marks[i].(emitted := true)], toSeq, at, next, seqNo)
    ensures AllAgree(plan, marks[i := marks[i].(emitted := true)], toSeq, payments)
  {
    var marks' := marks[i := marks[i].(emitted := true)];
    forall k | 0 <= k < |marks| ensures Stamped(marks'[k], toSeq[k], at.opens[k], at.closes[k], next, seqNo) {
      assert Stamped(marks[k], toSeq[k], at.opens[k], at.closes[k], next, seqNo);
    }
    forall k, p | 0 <= k < |plan| && 0 <= p < |payments| ensures Agrees(plan[k], marks'[k], toSeq[k], payments[p]) {
      assert Agrees(plan[k], marks[k], toSeq[k], payments[p]);
    }
  }
}
