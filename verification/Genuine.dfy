/** In which runs every stream receives only what was posted on it. */
module Genuine {
  import opened Types
  import opened Message
  import opened Prios
  import opened Reassembly
  import opened Delivery
  import opened EndToEnd
  import F = FrameOrder

  // ----- subsequences -----

  predicate SubSeq<T(==)>(a: seq<T>, b: seq<T>)
    decreases |b|
  {
    || a == []
    || (b != [] && SubSeq(a, b[..|b| - 1]))
    || (b != [] && a[|a| - 1] == b[|b| - 1] && SubSeq(a[..|a| - 1], b[..|b| - 1]))
  }

  lemma SubSeqSkip<T>(a: seq<T>, b: seq<T>, x: T)
    requires SubSeq(a, b)
    ensures SubSeq(a, b + [x])
  {
    assert (b + [x])[..|b|] == b;
  }

  lemma SubSeqBoth<T>(a: seq<T>, b: seq<T>, x: T)
    requires SubSeq(a, b)
    ensures SubSeq(a + [x], b + [x])
  {
    assert (a + [x])[..|a|] == a && (b + [x])[..|b|] == b;
  }

  lemma {:induction false} SubSeqLonger<T>(a: seq<T>, b: seq<T>, c: seq<T>)
    requires SubSeq(a, b)
    ensures SubSeq(a, b + c)
    decreases |c|
  {
    if c == [] {
      assert b + c == b;
    } else {
      var rest, x := c[..|c| - 1], c[|c| - 1];
      SubSeqLonger(a, b, rest);
      SubSeqSkip(a, b + rest, x);
      assert b + c == b + rest + [x];
    }
  }

  lemma {:induction false} SubSeqElement<T>(a: seq<T>, b: seq<T>, x: T)
    requires SubSeq(a, b) && x in a
    ensures x in b
    decreases |b|
  {
    if SubSeq(a, b[..|b| - 1]) {
      SubSeqElement(a, b[..|b| - 1], x);
    } else if x != a[|a| - 1] {
      SubSeqElement(a[..|a| - 1], b[..|b| - 1], x);
    }
  }

  // ----- fragments that stray -----

  /** The next turn goes on with a message whose id, at the receiver, now stands for another one. */
  predicate Strays(n: Net) {
    match NextMessage(n.s)
    case None => false
    case Some(m) => m.cursor > 0 && m.mid in n.rx.messages && n.rx.messages[m.mid] != Received(m)
  }

  predicate StrayFree(n: Net, ops: seq<NetOp>)
    requires Legal(n, ops)
    decreases |ops|
  {
    ops == [] || ((ops[0].TakeTurn? ==> !Strays(n)) && StrayFree(Apply(n, ops[0]), ops[1..]))
  }

  /** Without a clash no fragment strays. */
  lemma {:induction false} ClashFreeStrayFree(n: Net, ops: seq<NetOp>)
    requires Inv(n) && Legal(n, ops) && ClashFree(n, ops)
    ensures StrayFree(n, ops)
    decreases |ops|
  {
    if ops != [] {
      var n' := Apply(n, ops[0]);
      if ops[0].TakeTurn? && Next(n.s).Some? {
        assert InStep(n.rx, n.s.queues[Next(n.s).value][0].msg) by { assert Listed(n.s, n.rx); }
      }
      StepKeeps(n, n', ops[0]);
      ClashFreeStrayFree(n', ops[1..]);
    }
  }

  // ----- the invariant -----

  /** What was posted on `sid` is `done` and what is still queued, and what the stream got is part of `done`. */
  predicate Splits(n: Net, sid: Sid, done: seq<Payload>) {
    Given(n.sent, sid) == done + Pending(n, sid) && SubSeq(Obtained(n.rx.delivered, sid), done)
  }

  ghost predicate Part(n: Net, sid: Sid) { exists done :: Splits(n, sid, done) }

  lemma TurnReceived(n: Net, n': Net, p: Prio, m: Outgoing)
    requires IsNext(n.s, p) && m == n.s.queues[p][0].msg && n' == Apply(n, TakeTurn)
    ensures AllExpected(NextFrames(m)) && n'.rx == ReceiveAll(n.rx, NextFrames(m)) && NextMessage(n.s) == Some(m)
    ensures n'.s == Serve(n.s, p).s && n'.sent == n.sent
  {
    NextUnique(n.s, p);
    FragmentsExpected(m);
  }

  /** A continuation whose id is not in the table is ignored. */
  lemma Ignored(rx: Rx, m: Outgoing)
    requires 0 < m.cursor < |m.buffer| && m.mid !in rx.messages
    ensures AllExpected(NextFrames(m)) && ReceiveAll(rx, NextFrames(m)) == rx
  {
    var data := Data(m.mid, m.cursor, m.buffer[m.cursor..m.cursor + ToSend(m)]);
    assert NextFrames(m) == [data];
    ReceiveTwo(rx, data, data);
  }

  /** The messages delivered are `ds`, or these and `m`, if it is used up. */
  predicate Delivers(ds: seq<IncomingMessage>, m: Outgoing, ds': seq<IncomingMessage>) {
    ds' == ds || (Finishes(m) && m.buffer != [] && ds' == ds + [Complete(m)])
  }

  lemma InStepDelivers(rx: Rx, m: Outgoing, rx': Rx)
    requires m.cursor < |m.buffer| && InStep(rx, m)
    requires AllExpected(NextFrames(m)) && rx' == ReceiveAll(rx, NextFrames(m))
    ensures Delivers(rx.delivered, m, rx'.delivered)
  {
    ReceiveFragment(rx, m);
    if Finishes(m) {
      assert m.buffer[..|m.buffer|] == m.buffer;
      assert Received(Advanced(m)) == Complete(m);
    }
  }

  lemma TurnDelivers(rx: Rx, m: Outgoing, rx': Rx)
    requires AllExpected(NextFrames(m)) && rx' == ReceiveAll(rx, NextFrames(m))
    requires m.cursor > 0 && m.mid in rx.messages ==> rx.messages[m.mid] == Received(m)
    requires m.buffer != [] ==> m.cursor < |m.buffer|
    ensures Delivers(rx.delivered, m, rx'.delivered)
  {
    if m.buffer == [] {
      assert NextFrames(m) == [];
    } else if m.cursor > 0 && m.mid !in rx.messages {
      Ignored(rx, m);
    } else {
      InStepDelivers(rx, m, rx');
    }
  }

  lemma TurnSplits(n: Net, n': Net, p: Prio, m: Outgoing, sid: Sid, done: seq<Payload>)
    requires SchedValid(n.s) && F.InPlace(n) && IsNext(n.s, p) && m == n.s.queues[p][0].msg
    requires n' == Apply(n, TakeTurn) && !Strays(n) && Splits(n, sid, done)
    ensures Splits(n', sid, done + Gain(m, sid))
  {
    NextUnique(n.s, p);
    FrontMoves(n.s, n'.s, p, m);
    assert F.ItemInPlace(n, p, n.s.queues[p][0].sid) && n.s.queues[p][0].sid == m.sid;
    QueuedFront(n.s.queues[p], n'.s.queues[p], m, sid);
    assert Pending(n, sid) == Gain(m, sid) + Pending(n', sid);
    Joined(done, Gain(m, sid), Pending(n', sid));
    TurnReceived(n, n', p, m);
    TurnDelivers(n.rx, m, n'.rx);
    GainPart(n.rx.delivered, n'.rx.delivered, m, sid, done);
  }

  lemma GainPart(ds: seq<IncomingMessage>, ds': seq<IncomingMessage>, m: Outgoing, sid: Sid, done: seq<Payload>)
    requires SubSeq(Obtained(ds, sid), done)
    requires Delivers(ds, m, ds')
    ensures SubSeq(Obtained(ds', sid), done + Gain(m, sid))
  {
    var one := Payload(m.mid, m.buffer);
    if ds' == ds {
      SubSeqLonger(Obtained(ds, sid), done, Gain(m, sid));
    } else {
      ObtainedAppend(ds, Complete(m), sid);
      assert Obtained([Complete(m)], sid) == Gain(m, sid);
      if m.sid == sid {
        SubSeqBoth(Obtained(ds, sid), done, one);
      } else {
        assert Obtained(ds, sid) + [] == Obtained(ds, sid) && done + [] == done;
      }
    }
  }

  lemma PostSplits(n: Net, n': Net, op: NetOp, sid: Sid, done: seq<Payload>)
    requires op.Post? && Enabled(n, op) && n' == Apply(n, op) && Splits(n, sid, done)
    ensures Splits(n', sid, done)
  {
    var msg := OutgoingMessage(op.buffer, 0, op.mid, op.sid);
    GivenAppend(n.sent, msg, sid);
    PostPending(n, n', op, sid, msg);
    Joined(done, Pending(n, sid), Given([msg], sid));
  }

  lemma OpenSplits(n: Net, n': Net, op: NetOp, sid: Sid, done: seq<Payload>)
    requires op.Open? && Enabled(n, op) && n' == Apply(n, op) && F.InPlace(n) && Splits(n, sid, done)
    ensures Splits(n', sid, done)
  {
    if sid == op.sid {
      forall i | 0 <= i < |n.s.queues[op.prio]| ensures n.s.queues[op.prio][i].sid != sid {
        assert F.ItemInPlace(n, op.prio, n.s.queues[op.prio][i].sid);
      }
      NothingOf(n, sid, op.prio);
    }
  }

  lemma StepPart(n: Net, n': Net, op: NetOp, sid: Sid)
    requires SchedValid(n.s) && F.InPlace(n) && Enabled(n, op) && n' == Apply(n, op) && Part(n, sid)
    requires op.TakeTurn? ==> !Strays(n)
    ensures Part(n', sid)
  {
    var done :| Splits(n, sid, done);
    match op {
      case Open(_, _, _, _) => OpenSplits(n, n', op, sid, done);
      case Post(_, _, _) => PostSplits(n, n', op, sid, done);
      case TakeTurn =>
        var next := Next(n.s);
        if next.Some? {
          var m := n.s.queues[next.value][0].msg;
          TurnSplits(n, n', next.value, m, sid, done);
          done := done + Gain(m, sid);
        }
      case _ =>
    }
    assert Splits(n', sid, done);
  }

  lemma StepInPlace(n: Net, n': Net, op: NetOp)
    requires SchedValid(n.s) && F.InPlace(n) && Enabled(n, op) && n' == Apply(n, op)
    ensures SchedValid(n'.s) && F.InPlace(n')
  {
    if op.TakeTurn? {
      TurnValid(n.s);
      F.TurnInPlace(n, n');
    } else {
      F.OthersInPlace(n, op, n');
    }
    if op.Post? {
      EnqueueValid(n.s, n.prioOf[op.sid], Item(op.sid, OutgoingMessage(op.buffer, 0, op.mid, op.sid)));
    }
  }

  lemma {:induction false} RunPart(n: Net, ops: seq<NetOp>, sid: Sid)
    requires SchedValid(n.s) && F.InPlace(n) && Legal(n, ops) && StrayFree(n, ops) && Part(n, sid)
    ensures Part(RunNet(n, ops), sid)
    decreases |ops|
  {
    if ops != [] {
      var n' := Apply(n, ops[0]);
      StepInPlace(n, n', ops[0]);
      StepPart(n, n', ops[0], sid);
      RunPart(n', ops[1..], sid);
    }
  }

  /**
   * If no fragment strays, then in any run, clashes or not, and at any moment, what a stream has received
   * is part of what was posted on it: whole messages, each at most once, in order.
   */
  lemma OnlyPosted(ops: seq<NetOp>, sid: Sid, n: Net)
    requires Legal(Start(), ops) && StrayFree(Start(), ops) && n == RunNet(Start(), ops)
    ensures SubSeq(Obtained(n.rx.delivered, sid), Given(n.sent, sid))
    ensures forall x :: x in Obtained(n.rx.delivered, sid) ==> x in Given(n.sent, sid)
  {
    assert Splits(Start(), sid, []);
    RunPart(Start(), ops, sid);
    var done :| Splits(n, sid, done);
    SubSeqLonger(Obtained(n.rx.delivered, sid), done, Pending(n, sid));
    forall x | x in Obtained(n.rx.delivered, sid) ensures x in Given(n.sent, sid) {
      SubSeqElement(Obtained(n.rx.delivered, sid), Given(n.sent, sid), x);
    }
  }
}
