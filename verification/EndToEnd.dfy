/** The end-to-end theorems about whole runs of a sender, a wire and a receiver. */
module EndToEnd {
  import opened Types
  import opened Message
  import opened Prios
  import S = Scheduling
  import opened Reassembly
  import opened Delivery

  lemma {:induction false} RunKeeps(n: Net, ops: seq<NetOp>)
    requires Inv(n) && Legal(n, ops) && ClashFree(n, ops)
    ensures Inv(RunNet(n, ops))
    decreases |ops|
  {
    if ops != [] {
      var n' := Apply(n, ops[0]);
      StepKeeps(n, n', ops[0]);
      RunKeeps(n', ops[1..]);
    }
  }

  /** Every stream got exactly its non-empty messages: byte for byte, once each, in the order posted. */
  ghost predicate AllDelivered(n: Net) {
    forall sid: Sid :: Obtained(n.rx.delivered, sid) == Given(n.sent, sid)
  }

  /**
   * At every moment of a clash-free run, and for every stream: what was posted on it is what the
   * receiver's stream got followed by what the scheduler still holds.
   */
  lemma Conservation(ops: seq<NetOp>, sid: Sid)
    requires Legal(Start(), ops) && ClashFree(Start(), ops)
    ensures var n := RunNet(Start(), ops);
      Given(n.sent, sid) == Obtained(n.rx.delivered, sid) + Pending(n, sid)
  {
    StartInv();
    RunKeeps(Start(), ops);
  }

  /** A stream that was closed had received everything: closing loses nothing. */
  lemma ClosedComplete(ops: seq<NetOp>, sid: Sid)
    requires Legal(Start(), ops) && ClashFree(Start(), ops)
    requires sid in RunNet(Start(), ops).closed
    ensures var n := RunNet(Start(), ops);
      Obtained(n.rx.delivered, sid) == Given(n.sent, sid)
  {
    StartInv();
    RunKeeps(Start(), ops);
    var n := RunNet(Start(), ops);
    if sid in n.prioOf {
      var p := n.prioOf[sid];
      forall i | 0 <= i < |n.s.queues[p]| ensures n.s.queues[p][i].sid != sid {}
      NothingOf(n, sid, p);
    }
  }

  lemma DrainedDelivers(n: Net)
    requires Inv(n) && Idle(n.s)
    ensures AllDelivered(n)
  {
  }

  // ----- counting: every header the receiver loses is a message that is never delivered -----

  function NonEmpty(ms: seq<Outgoing>): nat {
    if ms == [] then 0 else (if ms[0].buffer != [] then 1 else 0) + NonEmpty(ms[1..])
  }

  function UnstartedIn(q: Queue): nat {
    if q == [] then 0 else (if q[0].msg.buffer != [] && q[0].msg.cursor == 0 then 1 else 0) + UnstartedIn(q[1..])
  }

  function Unstarted(qs: seq<Queue>): nat { Total(qs, UnstartedIn) }

  lemma {:induction false} NonEmptyAppend(ms: seq<Outgoing>, m: Outgoing)
    ensures NonEmpty(ms + [m]) == NonEmpty(ms) + if m.buffer != [] then 1 else 0
  {
    if ms == [] {
      assert ms + [m] == [m];
    } else {
      assert (ms + [m])[1..] == ms[1..] + [m];
      NonEmptyAppend(ms[1..], m);
    }
  }

  lemma {:induction false} UnstartedInAppend(q: Queue, item: Item)
    ensures UnstartedIn(q + [item]) == UnstartedIn(q) + UnstartedIn([item])
  {
    if q == [] {
      assert q + [item] == [item];
    } else {
      assert (q + [item])[1..] == q[1..] + [item];
      UnstartedInAppend(q[1..], item);
    }
  }

  /** Everything delivered, half put together or lost was started; everything else is queued unstarted. */
  ghost predicate Tally(n: Net) {
    && |n.rx.delivered| + |n.rx.messages| + n.lost <= n.started
    && n.started + Unstarted(n.s.queues) == NonEmpty(n.sent)
  }

  lemma TableSize(rx: Rx, f: Frame)
    requires f.DataHeader? || f.Data?
    ensures var rx' := Receive(rx, f);
      |rx'.delivered| + |rx'.messages| <=
      |rx.delivered| + |rx.messages| + if f.DataHeader? && f.mid !in rx.messages then 1 else 0
  {
  }

  lemma FragmentSize(rx: Rx, m: Outgoing)
    requires m.buffer != [] ==> m.cursor < |m.buffer|
    ensures AllExpected(NextFrames(m))
    ensures var rx' := ReceiveAll(rx, NextFrames(m));
      |rx'.delivered| + |rx'.messages| <= |rx.delivered| + |rx.messages|
        + if m.cursor == 0 && m.buffer != [] && m.mid !in rx.messages then 1 else 0
  {
    FragmentsExpected(m);
    if m.buffer != [] {
      var data := Data(m.mid, m.cursor, m.buffer[m.cursor..m.cursor + ToSend(m)]);
      if m.cursor == 0 {
        var header := DataHeader(m.mid, m.sid, |m.buffer|);
        ReceiveTwo(rx, header, data);
        TableSize(rx, header);
        TableSize(Receive(rx, header), data);
      } else {
        assert NextFrames(m) == [data];
        ReceiveTwo(rx, data, data);
        TableSize(rx, data);
      }
    }
  }

  lemma TurnUnstarted(s: Sched, s': Sched)
    requires SchedValid(s) && s' == Turn(s).s
    ensures Unstarted(s'.queues) == Unstarted(s.queues) - if Starts(s) then 1 else 0
  {
    if Next(s).Some? {
      var p := Next(s).value;
      var q, q' := s.queues[p], s'.queues[p];
      assert QueueValid(q);
      assert s'.queues == s.queues[p := q'];
      TotalUpdate(s.queues, p, q', UnstartedIn);
      if !Finishes(q[0].msg) { assert q'[1..] == q[1..]; }
    }
  }

  lemma TurnTally(n: Net, n': Net)
    requires SchedValid(n.s) && Tally(n) && n' == Apply(n, TakeTurn)
    ensures Tally(n')
  {
    TurnUnstarted(n.s, n'.s);
    if Next(n.s).Some? {
      var p := Next(n.s).value;
      assert QueueValid(n.s.queues[p]);
      FragmentSize(n.rx, n.s.queues[p][0].msg);
    }
  }

  lemma PostTally(n: Net, n': Net, op: NetOp)
    requires Tally(n) && op.Post? && Enabled(n, op) && n' == Apply(n, op)
    ensures Tally(n')
  {
    var p, msg := n.prioOf[op.sid], OutgoingMessage(op.buffer, 0, op.mid, op.sid);
    var q := n.s.queues[p];
    NonEmptyAppend(n.sent, msg);
    TotalUpdate(n.s.queues, p, q + [Item(op.sid, msg)], UnstartedIn);
    UnstartedInAppend(q, Item(op.sid, msg));
  }

  lemma StepTally(n: Net, n': Net, op: NetOp)
    requires SchedValid(n.s) && Tally(n) && Enabled(n, op) && n' == Apply(n, op)
    ensures SchedValid(n'.s) && Tally(n') && n'.lost >= n.lost
  {
    match op
    case Post(sid, mid, buffer) =>
      EnqueueValid(n.s, n.prioOf[sid], Item(sid, OutgoingMessage(buffer, 0, mid, sid)));
      PostTally(n, n', op);
    case TakeTurn =>
      TurnValid(n.s);
      TurnTally(n, n');
    case _ =>
  }

  lemma {:induction false} RunTally(n: Net, ops: seq<NetOp>)
    requires SchedValid(n.s) && Tally(n) && Legal(n, ops)
    ensures Tally(RunNet(n, ops)) && RunNet(n, ops).lost >= n.lost
    decreases |ops|
  {
    if ops != [] {
      var n' := Apply(n, ops[0]);
      StepTally(n, n', ops[0]);
      RunTally(n', ops[1..]);
    }
  }

  /** The first clash of a run overwrites a table entry that is still in use. */
  lemma {:induction false} ClashLoses(n: Net, ops: seq<NetOp>)
    requires Inv(n) && Tally(n) && Legal(n, ops) && !ClashFree(n, ops)
    ensures RunNet(n, ops).lost > 0
    decreases |ops|
  {
    var n' := Apply(n, ops[0]);
    StepTally(n, n', ops[0]);
    if ops[0].TakeTurn? && Clash(n.s) {
      var q: Prio :| Partial(n.s, q) && n.s.queues[q][0].msg.mid == NextMessage(n.s).value.mid;
      assert InStep(n.rx, n.s.queues[q][0].msg);
      RunTally(n', ops[1..]);
    } else {
      StepKeeps(n, n', ops[0]);
      ClashLoses(n', ops[1..]);
    }
  }

  function SidsGiven(ms: seq<Outgoing>): seq<Sid> {
    if ms == [] then [] else (if ms[0].buffer != [] then [ms[0].sid] else []) + SidsGiven(ms[1..])
  }

  function SidsObtained(ds: seq<IncomingMessage>): seq<Sid> {
    if ds == [] then [] else [ds[0].sid] + SidsObtained(ds[1..])
  }

  lemma {:induction false} CountGiven(ms: seq<Outgoing>, sid: Sid)
    ensures multiset(SidsGiven(ms))[sid] == |Given(ms, sid)| && |SidsGiven(ms)| == NonEmpty(ms)
  {
    if ms != [] { CountGiven(ms[1..], sid); }
  }

  lemma {:induction false} CountObtained(ds: seq<IncomingMessage>, sid: Sid)
    ensures multiset(SidsObtained(ds))[sid] == |Obtained(ds, sid)| && |SidsObtained(ds)| == |ds|
  {
    if ds != [] { CountObtained(ds[1..], sid); }
  }

  lemma DeliveredCount(n: Net)
    requires AllDelivered(n)
    ensures |n.rx.delivered| == NonEmpty(n.sent)
  {
    var a, b := multiset(SidsGiven(n.sent)), multiset(SidsObtained(n.rx.delivered));
    forall sid: Sid ensures a[sid] == b[sid] {
      CountGiven(n.sent, sid);
      CountObtained(n.rx.delivered, sid);
    }
    assert a == b;
    assert |a| == |SidsGiven(n.sent)| && |b| == |SidsObtained(n.rx.delivered)|;
    CountGiven(n.sent, 0);
    CountObtained(n.rx.delivered, 0);
  }

  /**
   * The delivery theorem. After any run that ends with nothing queued, every stream has received
   * exactly its non-empty messages, in order, if and only if no turn of the run started a message
   * while another one with the same message id was emitted in part.
   */
  lemma DeliveryExactly(ops: seq<NetOp>)
    requires Legal(Start(), ops) && Idle(RunNet(Start(), ops).s)
    ensures AllDelivered(RunNet(Start(), ops)) <==> ClashFree(Start(), ops)
  {
    var n := RunNet(Start(), ops);
    StartInv();
    TotalZero(Start().s.queues, UnstartedIn);
    if ClashFree(Start(), ops) {
      RunKeeps(Start(), ops);
      DrainedDelivers(n);
    } else {
      ClashLoses(Start(), ops);
      RunTally(Start(), ops);
      TotalZero(n.s.queues, UnstartedIn);
      if AllDelivered(n) { DeliveredCount(n); }
    }
  }

  // ----- when there is no clash -----

  /** All streams share one priority. */
  ghost predicate OnePrio(n: Net, p: Prio) {
    && (forall sid :: sid in n.prioOf ==> n.prioOf[sid] == p)
    && (forall r: Prio :: r != p ==> n.s.queues[r] == [])
  }

  /** With a single priority no hypothesis on the message ids is needed. */
  lemma {:induction false} OnePrioClashFree(n: Net, ops: seq<NetOp>, p: Prio)
    requires Legal(n, ops) && OnePrio(n, p)
    requires forall op :: op in ops && op.Open? ==> op.prio == p
    ensures ClashFree(n, ops)
    decreases |ops|
  {
    if ops != [] {
      var n' := Apply(n, ops[0]);
      assert OnePrio(n', p);
      OnePrioClashFree(n', ops[1..], p);
    }
  }

  function TakeTurns(k: nat): seq<NetOp> { seq(k, _ => TakeTurn) }

  lemma {:induction false} TurnsDrain(n: Net, k: nat)
    ensures Legal(n, TakeTurns(k)) && RunNet(n, TakeTurns(k)).s == Turns(n.s, k).s
    decreases k
  {
    if k > 0 {
      var n', j := Apply(n, TakeTurn), k - 1;
      assert TakeTurns(k)[0] == TakeTurn && TakeTurns(k)[1..] == TakeTurns(j);
      TurnsDrain(n', j);
      S.OneTurnLess(n.s, k, n'.s, j);
    }
  }

  lemma {:induction false} RunNetAppend(n: Net, a: seq<NetOp>, b: seq<NetOp>)
    requires Legal(n, a) && Legal(RunNet(n, a), b)
    ensures Legal(n, a + b) && RunNet(n, a + b) == RunNet(RunNet(n, a), b)
    decreases |a|
  {
    if a == [] {
      assert a + b == b;
    } else {
      assert (a + b)[1..] == a[1..] + b;
      RunNetAppend(Apply(n, a[0]), a[1..], b);
    }
  }

  lemma TurnsFinish(start: Net, ops: seq<NetOp>, k: nat, n: Net)
    requires Legal(start, ops) && n == RunNet(start, ops) && k >= S.Work(n.s.queues)
    ensures Legal(start, ops + TakeTurns(k)) && Idle(RunNet(start, ops + TakeTurns(k)).s)
  {
    TurnsDrain(n, k);
    RunNetAppend(start, ops, TakeTurns(k));
    S.DrainedExactly(n.s, k);
  }

  /**
   * Liveness for streams of one priority: whatever was posted, as many further turns as there are
   * fragments left bring every message to its stream.
   */
  lemma OnePrioDelivers(ops: seq<NetOp>, p: Prio, k: nat)
    requires Legal(Start(), ops) && forall op :: op in ops && op.Open? ==> op.prio == p
    requires k >= S.Work(RunNet(Start(), ops).s.queues)
    ensures Legal(Start(), ops + TakeTurns(k)) && AllDelivered(RunNet(Start(), ops + TakeTurns(k)))
  {
    var all := ops + TakeTurns(k);
    TurnsFinish(Start(), ops, k, RunNet(Start(), ops));
    OnePrioClashFree(Start(), all, p);
    DeliveryExactly(all);
  }

  // ----- single steps -----

  lemma Single(n: Net, op: NetOp)
    requires Enabled(n, op)
    ensures Legal(n, [op]) && RunNet(n, [op]) == Apply(n, op)
  {
  }

  lemma OneMore(n: Net, ops: seq<NetOp>, op: NetOp)
    requires Legal(n, ops) && Enabled(RunNet(n, ops), op)
    ensures Legal(n, ops + [op]) && RunNet(n, ops + [op]) == Apply(RunNet(n, ops), op)
  {
    Single(RunNet(n, ops), op);
    RunNetAppend(n, ops, [op]);
  }
}
