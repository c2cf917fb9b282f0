/** The receiving side over whole runs: which streams it knows, and that it delivers whole messages only. */
module Receiver {
  import opened Types
  import opened Message
  import opened Prios
  import opened Reassembly
  import opened Delivery

  // ----- whole messages -----

  /** Every message that was handed to a stream has the length that its header announced. */
  predicate Whole(ds: seq<IncomingMessage>) { forall i :: 0 <= i < |ds| ==> |ds[i].buffer| == ds[i].length }

  lemma {:induction false} ReceiveWhole(rx: Rx, fs: seq<Frame>)
    requires AllExpected(fs) && Whole(rx.delivered)
    ensures Whole(ReceiveAll(rx, fs).delivered)
    decreases |fs|
  {
    if fs != [] { ReceiveWhole(Receive(rx, fs[0]), fs[1..]); }
  }

  /** Whatever frames arrive, only messages of the announced length are handed to a stream. */
  lemma OnlyWholeMessages(fs: seq<Frame>)
    requires AllExpected(fs)
    ensures Whole(ReceiveAll(NO_RX, fs).delivered)
  {
    ReceiveWhole(NO_RX, fs);
  }

  // ----- the streams that are known -----

  /** The promises with which the streams were opened. */
  function Promised(ops: seq<NetOp>, before: map<Sid, Promises>): map<Sid, Promises> {
    if ops == [] then before else Promised(ops[1..], Noted(ops[0], before))
  }

  function Noted(op: NetOp, before: map<Sid, Promises>): map<Sid, Promises> {
    if op.Open? then before[op.sid := op.promises] else before
  }

  /** The receiver knows exactly the streams that are open, with what they were opened with. */
  ghost predicate Knows(n: Net, promises: map<Sid, Promises>) {
    && n.closed <= n.prioOf.Keys == promises.Keys
    && n.rx.streams.Keys == n.prioOf.Keys - n.closed
    && forall sid :: sid in n.rx.streams ==> n.rx.streams[sid] == StreamInfo(n.prioOf[sid], promises[sid], true)
  }

  predicate OnlyData(fs: seq<Frame>) { forall f :: f in fs ==> f.DataHeader? || f.Data? }

  lemma {:induction false} DataOpensNothing(rx: Rx, fs: seq<Frame>)
    requires OnlyData(fs)
    ensures AllExpected(fs) && ReceiveAll(rx, fs).streams == rx.streams
    decreases |fs|
  {
    if fs != [] {
      assert fs[0] in fs;
      DataOpensNothing(Receive(rx, fs[0]), fs[1..]);
    }
  }

  lemma StepKnows(n: Net, op: NetOp, n': Net, promises: map<Sid, Promises>)
    requires Enabled(n, op) && n' == Apply(n, op) && Knows(n, promises)
    ensures Knows(n', Noted(op, promises))
  {
    if op.TakeTurn? {
      assert OnlyData(TurnFrames(n.s));
      DataOpensNothing(n.rx, TurnFrames(n.s));
    }
  }

  lemma {:induction false} RunKnows(n: Net, ops: seq<NetOp>, promises: map<Sid, Promises>)
    requires Legal(n, ops) && Knows(n, promises)
    ensures Knows(RunNet(n, ops), Promised(ops, promises))
    decreases |ops|
  {
    if ops != [] {
      var n' := Apply(n, ops[0]);
      StepKnows(n, ops[0], n', promises);
      RunKnows(n', ops[1..], Noted(ops[0], promises));
    }
  }

  /**
   * At every moment of any run, the receiver knows the streams that were opened by either side and not
   * closed, with the priority and the promises they were opened with, and each of them takes messages.
   */
  lemma StreamsKnown(ops: seq<NetOp>, start: Net)
    requires start == Start() && Legal(start, ops)
    ensures Knows(RunNet(start, ops), Promised(ops, map[]))
  {
    RunKnows(start, ops, map[]);
  }
}
