/** The frames of whole runs survive the wire: encoded, cut anywhere, decoded and put together again. */
module OverTheWire {
  import opened Types
  import opened Protocols
  import opened Message
  import opened Reassembly
  import opened Delivery

  /** Whatever a message is cut into fits both wire formats. */
  lemma FragmentsFit(m: Outgoing)
    ensures forall f :: f in NextFrames(m) ==> Fits(f) && |Encode(f)| <= UDP_BUFFER
  {
  }

  // ----- what the receiver makes of the wire -----

  /** What happens to the receiver: a frame arrives, or its own side opens a stream. */
  datatype Input = Arrives(frame: Frame) | OpensItself(sid: Sid, info: StreamInfo)

  predicate InputsExpected(ins: seq<Input>) { forall i :: i in ins && i.Arrives? ==> Expected(i.frame) }

  function Take(rx: Rx, i: Input): Rx
    requires i.Arrives? ==> Expected(i.frame)
  {
    match i
    case Arrives(f) => Receive(rx, f)
    case OpensItself(sid, info) => rx.(streams := rx.streams[sid := info])
  }

  function TakeAll(rx: Rx, ins: seq<Input>): Rx
    requires InputsExpected(ins)
    decreases |ins|
  {
    if ins == [] then rx else TakeAll(Take(rx, ins[0]), ins[1..])
  }

  /** The frames among them, in order. */
  function FramesIn(ins: seq<Input>): seq<Frame> {
    if ins == [] then [] else (if ins[0].Arrives? then [ins[0].frame] else []) + FramesIn(ins[1..])
  }

  function Arriving(fs: seq<Frame>): seq<Input> { if fs == [] then [] else [Arrives(fs[0])] + Arriving(fs[1..]) }

  /** What a step of the system does to the receiver. */
  function InputsBy(n: Net, op: NetOp): seq<Input> {
    match op
    case Open(sid, prio, promises, opener) =>
      if opener == Us then [Arrives(OpenStream(sid, prio, promises))]
      else [OpensItself(sid, StreamInfo(prio, promises, true))]
    case Close(sid) => [Arrives(CloseStream(sid))]
    case TakeTurn => Arriving(TurnFrames(n.s))
    case _ => []
  }

  function Inputs(n: Net, ops: seq<NetOp>): seq<Input>
    requires Legal(n, ops)
    decreases |ops|
  {
    if ops == [] then [] else InputsBy(n, ops[0]) + Inputs(Apply(n, ops[0]), ops[1..])
  }

  lemma {:induction false} TakeJoin(rx: Rx, a: seq<Input>, b: seq<Input>)
    requires InputsExpected(a) && InputsExpected(b)
    ensures InputsExpected(a + b) && TakeAll(rx, a + b) == TakeAll(TakeAll(rx, a), b)
    decreases |a|
  {
    if a == [] {
      assert a + b == b;
    } else {
      assert (a + b)[1..] == a[1..] + b;
      TakeJoin(Take(rx, a[0]), a[1..], b);
    }
  }

  lemma Joined(a: seq<Frame>, b: seq<Frame>, c: seq<Frame>)
    ensures a + b + c == a + (b + c)
  {
  }

  lemma {:induction false} FramesJoin(a: seq<Input>, b: seq<Input>)
    ensures FramesIn(a + b) == FramesIn(a) + FramesIn(b)
    decreases |a|
  {
    if a == [] {
      assert a + b == b;
    } else {
      var first, rest := a[0], a[1..];
      assert (a + b)[0] == first && (a + b)[1..] == rest + b;
      FramesJoin(rest, b);
      Joined(if first.Arrives? then [first.frame] else [], FramesIn(rest), FramesIn(b));
    }
  }

  lemma {:induction false} ArrivingTaken(rx: Rx, fs: seq<Frame>)
    requires AllExpected(fs)
    ensures InputsExpected(Arriving(fs)) && TakeAll(rx, Arriving(fs)) == ReceiveAll(rx, fs)
    ensures FramesIn(Arriving(fs)) == fs
    decreases |fs|
  {
    if fs != [] {
      ArrivingTaken(Receive(rx, fs[0]), fs[1..]);
      assert Arriving(fs)[1..] == Arriving(fs[1..]);
    }
  }

  /** One step puts exactly its frames on the wire, and does to the receiver what they do. */
  lemma StepTaken(n: Net, n': Net, op: NetOp, ins: seq<Input>)
    requires Enabled(n, op) && n' == Apply(n, op) && ins == InputsBy(n, op)
    ensures InputsExpected(ins) && TakeAll(n.rx, ins) == n'.rx && n'.wire == n.wire + FramesIn(ins)
    ensures AllFit(FramesIn(ins))
  {
    match op
    case Open(sid, prio, promises, opener) =>
      assert ins[1..] == [];
    case Close(sid) =>
      assert ins[1..] == [];
    case TakeTurn =>
      ArrivingTaken(n.rx, TurnFrames(n.s));
      if NextMessage(n.s).Some? { FragmentsFit(NextMessage(n.s).value); }
    case _ =>
  }

  /** The same of a whole run. */
  lemma {:induction false} RunTaken(n: Net, ops: seq<NetOp>)
    requires Legal(n, ops)
    ensures InputsExpected(Inputs(n, ops)) && TakeAll(n.rx, Inputs(n, ops)) == RunNet(n, ops).rx
    decreases |ops|
  {
    if ops != [] {
      var n', now := Apply(n, ops[0]), InputsBy(n, ops[0]);
      StepTaken(n, n', ops[0], now);
      RunTaken(n', ops[1..]);
      TakeJoin(n.rx, now, Inputs(n', ops[1..]));
    }
  }

  lemma AllFitJoin(a: seq<Frame>, b: seq<Frame>)
    requires AllFit(a) && AllFit(b)
    ensures AllFit(a + b)
  {
  }

  lemma {:induction false} RunWire(n: Net, ops: seq<NetOp>)
    requires Legal(n, ops)
    ensures RunNet(n, ops).wire == n.wire + FramesIn(Inputs(n, ops)) && AllFit(FramesIn(Inputs(n, ops)))
    decreases |ops|
  {
    if ops != [] {
      var n', now := Apply(n, ops[0]), InputsBy(n, ops[0]);
      var later := Inputs(n', ops[1..]);
      StepTaken(n, n', ops[0], now);
      RunWire(n', ops[1..]);
      FramesJoin(now, later);
      AllFitJoin(FramesIn(now), FramesIn(later));
      Joined(n.wire, FramesIn(now), FramesIn(later));
    }
  }

  /**
   * Schedule, fragment, encode, cut the byte stream anywhere, decode, reassemble: what is decoded are
   * the frames that have arrived completely, and after all bytes exactly those that, together with the
   * streams that the receiver's side opened meanwhile, bring it to `rx`.
   */
  lemma ThroughTheWire(ops: seq<NetOp>, k: nat, n: Net, ins: seq<Input>)
    requires Legal(Start(), ops) && n == RunNet(Start(), ops) && ins == Inputs(Start(), ops)
    requires k <= |EncodeAll(n.wire)|
    ensures ParseAll(EncodeAll(n.wire)[..k]) == n.wire[..Arrived(n.wire, k)]
    ensures ParseAll(EncodeAll(n.wire)) == FramesIn(ins)
    ensures InputsExpected(ins) && TakeAll(NO_RX, ins) == n.rx
  {
    RunTaken(Start(), ops);
    RunWire(Start(), ops);
    assert [] + FramesIn(ins) == FramesIn(ins);
    StreamPrefix(n.wire, k);
    StreamRoundTrip(n.wire);
  }
}
