/**
 * The order of the frames of one stream, whatever the message ids are. `fill_frames` emits every frame
 * together with the id of its stream; `send_mgr` forgets the id before it sends the frame.
 */
module FrameOrder {
  import opened Types
  import opened Message
  import opened Prios
  import opened Reassembly
  import opened Delivery
  import Sending
  import C = Closing
  import E = EndToEnd

  datatype Tagged = Tagged(sid: Sid, frame: Frame)

  function Tag(sid: Sid, fs: seq<Frame>): seq<Tagged> {
    if fs == [] then [] else [Tagged(sid, fs[0])] + Tag(sid, fs[1..])
  }

  function Untagged(ts: seq<Tagged>): seq<Frame> { if ts == [] then [] else [ts[0].frame] + Untagged(ts[1..]) }

  /** The frames of one stream, in order. */
  function Of(ts: seq<Tagged>, sid: Sid): seq<Frame> {
    if ts == [] then [] else (if ts[0].sid == sid then [ts[0].frame] else []) + Of(ts[1..], sid)
  }

  /** What a step puts on the wire, with the streams it belongs to. */
  function TaggedBy(n: Net, op: NetOp): seq<Tagged> {
    match op
    case Open(sid, prio, promises, opener) =>
      if opener == Us then [Tagged(sid, OpenStream(sid, prio, promises))] else []
    case Close(sid) => [Tagged(sid, CloseStream(sid))]
    case TakeTurn =>
      (match Next(n.s)
       case None => []
       case Some(p) => Tag(n.s.queues[p][0].sid, NextFrames(n.s.queues[p][0].msg)))
    case _ => []
  }

  function Emitted(n: Net, ops: seq<NetOp>): seq<Tagged>
    requires Legal(n, ops)
    decreases |ops|
  {
    if ops == [] then [] else TaggedBy(n, ops[0]) + Emitted(Apply(n, ops[0]), ops[1..])
  }

  // ----- the frames a stream should emit -----

  /** All fragments of a message from its cursor on. */
  function Fragments(m: Outgoing): seq<Frame>
    decreases |m.buffer| - m.cursor
  {
    if m.cursor == |m.buffer| then [] else NextFrames(m) + Fragments(Advanced(m))
  }

  /** All fragments of the messages of a stream, in order. */
  function Script(ms: seq<Outgoing>, sid: Sid): seq<Frame> {
    if ms == [] then [] else (if ms[0].sid == sid then Fragments(ms[0]) else []) + Script(ms[1..], sid)
  }

  function LeftIn(q: Queue, sid: Sid): seq<Frame> {
    if q == [] then [] else (if q[0].sid == sid then Fragments(q[0].msg) else []) + LeftIn(q[1..], sid)
  }

  /** Those that are still to come. */
  function Left(n: Net, sid: Sid): seq<Frame> {
    if sid in n.prioOf then LeftIn(n.s.queues[n.prioOf[sid]], sid) else []
  }

  /** The data frames of a message from the `k`-th on: 1400 bytes each, the last one has what is left. */
  function Pieces(mid: Mid, buffer: seq<u8>, k: nat): seq<Frame>
    requires |buffer| <= U64_MAX
    decreases |buffer| - 1400 * k
  {
    if 1400 * k >= |buffer| then []
    else
      var end := if 1400 * k + 1400 < |buffer| then 1400 * k + 1400 else |buffer|;
      [Data(mid, 1400 * k, buffer[1400 * k..end])] + Pieces(mid, buffer, k + 1)
  }

  lemma {:induction false} FragmentsFrom(m: Outgoing, k: nat)
    requires k > 0 && m.cursor == if 1400 * k < |m.buffer| then 1400 * k else |m.buffer|
    ensures Fragments(m) == Pieces(m.mid, m.buffer, k)
    decreases |m.buffer| - m.cursor
  {
    if m.cursor < |m.buffer| { FragmentsFrom(Advanced(m), k + 1); }
  }

  /** What becomes of a message: nothing if it is empty, else a header and its bytes in pieces of 1400. */
  lemma FragmentsAre(m: Outgoing)
    requires m.cursor == 0
    ensures Fragments(m) ==
      if m.buffer == [] then [] else [DataHeader(m.mid, m.sid, |m.buffer|)] + Pieces(m.mid, m.buffer, 0)
  {
    if m.buffer != [] { FragmentsFrom(Advanced(m), 1); }
  }

  // ----- lists -----

  lemma Joined(a: seq<Frame>, b: seq<Frame>, c: seq<Frame>)
    ensures a + b + c == a + (b + c)
  {
  }

  lemma {:induction false} OfJoin(a: seq<Tagged>, b: seq<Tagged>, sid: Sid)
    ensures Of(a + b, sid) == Of(a, sid) + Of(b, sid)
  {
    if a == [] {
      assert a + b == b;
    } else {
      var rest := a[1..];
      assert (a + b)[1..] == rest + b;
      OfJoin(rest, b, sid);
      Joined(if a[0].sid == sid then [a[0].frame] else [], Of(rest, sid), Of(b, sid));
    }
  }

  lemma {:induction false} OfTag(t: Sid, fs: seq<Frame>, sid: Sid)
    ensures Of(Tag(t, fs), sid) == (if t == sid then fs else []) && Untagged(Tag(t, fs)) == fs
  {
    if fs != [] { OfTag(t, fs[1..], sid); }
  }

  lemma {:induction false} UntaggedJoin(a: seq<Tagged>, b: seq<Tagged>)
    ensures Untagged(a + b) == Untagged(a) + Untagged(b)
  {
    if a == [] {
      assert a + b == b;
    } else {
      assert (a + b)[1..] == a[1..] + b;
      UntaggedJoin(a[1..], b);
      Joined([a[0].frame], Untagged(a[1..]), Untagged(b));
    }
  }

  lemma {:induction false} ScriptJoin(a: seq<Outgoing>, b: seq<Outgoing>, sid: Sid)
    ensures Script(a + b, sid) == Script(a, sid) + Script(b, sid)
  {
    if a == [] {
      assert a + b == b;
    } else {
      assert (a + b)[1..] == a[1..] + b;
      ScriptJoin(a[1..], b, sid);
      Joined(if a[0].sid == sid then Fragments(a[0]) else [], Script(a[1..], sid), Script(b, sid));
    }
  }

  lemma {:induction false} LeftJoin(q: Queue, r: Queue, sid: Sid)
    ensures LeftIn(q + r, sid) == LeftIn(q, sid) + LeftIn(r, sid)
  {
    if q == [] {
      assert q + r == r;
    } else {
      assert (q + r)[1..] == q[1..] + r;
      LeftJoin(q[1..], r, sid);
      Joined(if q[0].sid == sid then Fragments(q[0].msg) else [], LeftIn(q[1..], sid), LeftIn(r, sid));
    }
  }

  lemma {:induction false} NothingLeftIn(q: Queue, sid: Sid)
    requires CountIn(q, sid) == 0
    ensures LeftIn(q, sid) == []
  {
    if q != [] { NothingLeftIn(q[1..], sid); }
  }

  // ----- one step -----

  /** Every queued message is at the priority of its stream, which is not closed. */
  ghost predicate InPlace(n: Net) {
    forall p: Prio, i :: 0 <= i < |n.s.queues[p]| ==> ItemInPlace(n, p, n.s.queues[p][i].sid)
  }

  predicate ItemInPlace(n: Net, p: Prio, sid: Sid) { sid in n.prioOf && n.prioOf[sid] == p && sid !in n.closed }

  /** The first frame of a stream that this side opened says so. */
  predicate Opens(n: Net, fs: seq<Frame>, sid: Sid) {
    sid !in n.joined ==>
      fs != [] && fs[0].OpenStream? && fs[0].sid == sid && sid in n.prioOf && fs[0].prio == n.prioOf[sid]
  }

  /** The frames after it. */
  function Body(n: Net, fs: seq<Frame>, sid: Sid): seq<Frame> { if sid in n.joined || fs == [] then fs else fs[1..] }

  /**
   * What is known of the frames of a stream: the first one opens it, if this side did; those after it,
   * followed by those still to come, are the fragments of its messages; and if it is closed, the last
   * one says so.
   */
  predicate Told(n: Net, ts: seq<Tagged>, sid: Sid) {
    var fs := Of(ts, sid);
    if sid !in n.prioOf then fs == [] && Script(n.sent, sid) == [] && sid !in n.joined
    else
      && Opens(n, fs, sid)
      && if sid in n.closed then Body(n, fs, sid) == Script(n.sent, sid) + [CloseStream(sid)] && Left(n, sid) == []
         else Body(n, fs, sid) + Left(n, sid) == Script(n.sent, sid)
  }

  ghost predicate AllTold(n: Net, ts: seq<Tagged>) {
    SchedValid(n.s) && InPlace(n) && n.closed <= n.prioOf.Keys && forall sid: Sid :: Told(n, ts, sid)
  }

  /** A step that emits `fs` for the stream. */
  lemma TagsOf(n: Net, ts: seq<Tagged>, op: NetOp, sid: Sid, fs: seq<Frame>)
    requires Of(TaggedBy(n, op), sid) == fs
    ensures Of(ts + TaggedBy(n, op), sid) == Of(ts, sid) + fs
  {
    OfJoin(ts, TaggedBy(n, op), sid);
  }

  lemma BodyGrows(n: Net, fs: seq<Frame>, gs: seq<Frame>, sid: Sid)
    requires Opens(n, fs, sid)
    ensures Opens(n, fs + gs, sid) && Body(n, fs + gs, sid) == Body(n, fs, sid) + gs
  {
  }

  lemma NothingLeft(n: Net, sid: Sid, p: Prio)
    requires InPlace(n) && !ItemInPlace(n, p, sid)
    ensures LeftIn(n.s.queues[p], sid) == []
  {
    CountInZero(n.s.queues[p], sid);
    NothingLeftIn(n.s.queues[p], sid);
  }

  lemma NothingQueuedLeft(n: Net, sid: Sid)
    requires CountAll(n.s.queues, sid) == 0
    ensures Left(n, sid) == []
  {
    if sid in n.prioOf {
      CountAllZero(n.s.queues, sid);
      NothingLeftIn(n.s.queues[n.prioOf[sid]], sid);
    }
  }

  /** A step that neither emits anything for the stream nor touches it. */
  lemma Untouched(n: Net, ts: seq<Tagged>, n': Net, ts': seq<Tagged>, sid: Sid)
    requires Told(n, ts, sid) && Of(ts', sid) == Of(ts, sid) && n'.sent == n.sent && n'.s.queues == n.s.queues
    requires (sid in n'.prioOf <==> sid in n.prioOf) && (sid in n.prioOf ==> n'.prioOf[sid] == n.prioOf[sid])
    requires (sid in n'.joined <==> sid in n.joined) && (sid in n'.closed <==> sid in n.closed)
    ensures Told(n', ts', sid)
  {
  }

  lemma FirstFrame(n: Net, op: NetOp, ts: seq<Tagged>, n': Net, ts': seq<Tagged>)
    requires op.Open? && Told(n, ts, op.sid) && op.sid !in n.prioOf && op.sid !in n.closed && n' == Apply(n, op)
    requires Of(ts', op.sid) == Of(ts, op.sid) + TaggedFrames(op) && Left(n', op.sid) == []
    ensures Told(n', ts', op.sid)
  {
  }

  function TaggedFrames(op: NetOp): seq<Frame>
    requires op.Open?
  {
    if op.opener == Us then [OpenStream(op.sid, op.prio, op.promises)] else []
  }

  lemma OpenTells(n: Net, ts: seq<Tagged>, op: NetOp, n': Net, sid: Sid)
    requires AllTold(n, ts) && op.Open? && Enabled(n, op) && n' == Apply(n, op)
    ensures Told(n', ts + TaggedBy(n, op), sid)
  {
    assert Told(n, ts, sid);
    TagsOf(n, ts, op, sid, if op.sid == sid then TaggedFrames(op) else []);
    if sid == op.sid {
      NothingLeft(n, sid, op.prio);
      FirstFrame(n, op, ts, n', ts + TaggedBy(n, op));
    } else {
      Untouched(n, ts, n', ts + TaggedBy(n, op), sid);
    }
  }

  lemma LastFrame(n: Net, ts: seq<Tagged>, n': Net, ts': seq<Tagged>, sid: Sid)
    requires Told(n, ts, sid) && sid in n.prioOf && sid !in n.closed && Left(n, sid) == []
    requires n'.sent == n.sent && n'.s.queues == n.s.queues && n'.prioOf == n.prioOf
    requires n'.joined == n.joined && sid in n'.closed
    requires Of(ts', sid) == Of(ts, sid) + [CloseStream(sid)]
    ensures Told(n', ts', sid)
  {
    BodyGrows(n, Of(ts, sid), [CloseStream(sid)], sid);
    assert Body(n, Of(ts, sid), sid) + [] == Body(n, Of(ts, sid), sid);
  }

  lemma CloseTells(n: Net, ts: seq<Tagged>, op: NetOp, n': Net, sid: Sid)
    requires AllTold(n, ts) && op.Close? && Enabled(n, op) && n' == Apply(n, op)
    ensures Told(n', ts + TaggedBy(n, op), sid)
  {
    var f := CloseStream(op.sid);
    assert Told(n, ts, sid);
    OfTag(op.sid, [f], sid);
    assert Tag(op.sid, [f]) == [Tagged(op.sid, f)];
    TagsOf(n, ts, op, sid, if op.sid == sid then [f] else []);
    if sid == op.sid {
      NothingQueuedLeft(n, sid);
      LastFrame(n, ts, n', ts + TaggedBy(n, op), sid);
    } else {
      Untouched(n, ts, n', ts + TaggedBy(n, op), sid);
    }
  }

  /** What a post adds to the frames of a stream that are still to come. */
  lemma PostLeft(n: Net, op: NetOp, n': Net, sid: Sid, m: Outgoing, more: seq<Frame>)
    requires op.Post? && Enabled(n, op) && n' == Apply(n, op) && InPlace(n)
    requires m == OutgoingMessage(op.buffer, 0, op.mid, op.sid) && more == if sid == op.sid then Fragments(m) else []
    ensures Left(n', sid) == Left(n, sid) + more && Script(n'.sent, sid) == Script(n.sent, sid) + more
  {
    ScriptJoin(n.sent, [m], sid);
    assert Script([m], sid) == more;
    if sid in n.prioOf && n.prioOf[sid] == n.prioOf[op.sid] {
      LeftJoin(n.s.queues[n.prioOf[sid]], [Item(op.sid, m)], sid);
      assert LeftIn([Item(op.sid, m)], sid) == more;
    }
  }

  lemma PostTells(n: Net, ts: seq<Tagged>, op: NetOp, n': Net, sid: Sid)
    requires AllTold(n, ts) && op.Post? && Enabled(n, op) && n' == Apply(n, op)
    ensures Told(n', ts + TaggedBy(n, op), sid)
  {
    assert Told(n, ts, sid);
    assert ts + TaggedBy(n, op) == ts;
    var m := OutgoingMessage(op.buffer, 0, op.mid, op.sid);
    var more := if sid == op.sid then Fragments(m) else [];
    PostLeft(n, op, n', sid, m, more);
    PostAdds(n, ts, n', sid, more);
  }

  lemma PostAdds(n: Net, ts: seq<Tagged>, n': Net, sid: Sid, more: seq<Frame>)
    requires Told(n, ts, sid) && n'.prioOf == n.prioOf && n'.joined == n.joined && n'.closed == n.closed
    requires Left(n', sid) == Left(n, sid) + more && Script(n'.sent, sid) == Script(n.sent, sid) + more
    requires sid !in n.prioOf || sid in n.closed ==> more == []
    ensures Told(n', ts, sid)
  {
    if sid in n.prioOf { Joined(Body(n, Of(ts, sid), sid), Left(n, sid), more); }
  }

  /** A turn moves the next frames of its message from those to come to those emitted. */
  lemma FrontLeft(q: Queue, q': Queue, sid: Sid)
    requires q != [] && QueueValid(q)
    requires q' == (if Finishes(q[0].msg) then [] else [Item(q[0].sid, Advanced(q[0].msg))]) + q[1..]
    ensures LeftIn(q, sid) == (if q[0].sid == sid then NextFrames(q[0].msg) else []) + LeftIn(q', sid)
  {
    var m, rest := q[0].msg, LeftIn(q[1..], sid);
    if Finishes(m) {
      assert q' == q[1..];
      assert Fragments(Advanced(m)) == [];
      assert Fragments(m) == NextFrames(m);
    } else {
      assert q'[1..] == q[1..];
      Joined(NextFrames(m), Fragments(Advanced(m)), rest);
    }
  }

  /** The frames that a turn of queue `p` emits for a stream. */
  function TurnFramesOf(q: Queue, sid: Sid): seq<Frame>
    requires q != []
  {
    if q[0].sid == sid then NextFrames(q[0].msg) else []
  }

  lemma TurnQueues(n: Net, n': Net, p: Prio)
    requires Next(n.s) == Some(p) && n' == Apply(n, TakeTurn)
    ensures n'.sent == n.sent && n'.prioOf == n.prioOf && n'.joined == n.joined && n'.closed == n.closed
    ensures forall r: Prio :: r != p ==> n'.s.queues[r] == n.s.queues[r]
    ensures var q := n.s.queues[p];
      n'.s.queues[p] == (if Finishes(q[0].msg) then [] else [Item(q[0].sid, Advanced(q[0].msg))]) + q[1..]
  {
  }

  lemma TurnLeft(n: Net, n': Net, p: Prio, sid: Sid)
    requires SchedValid(n.s) && InPlace(n) && Next(n.s) == Some(p) && n' == Apply(n, TakeTurn)
    ensures Left(n, sid) == TurnFramesOf(n.s.queues[p], sid) + Left(n', sid)
  {
    TurnQueues(n, n', p);
    assert QueueValid(n.s.queues[p]) && ItemInPlace(n, p, n.s.queues[p][0].sid);
    FrontLeft(n.s.queues[p], n'.s.queues[p], sid);
  }

  lemma TurnEmits(n: Net, ts: seq<Tagged>, p: Prio, sid: Sid)
    requires Next(n.s) == Some(p)
    ensures Of(ts + TaggedBy(n, TakeTurn), sid) == Of(ts, sid) + TurnFramesOf(n.s.queues[p], sid)
  {
    OfTag(n.s.queues[p][0].sid, NextFrames(n.s.queues[p][0].msg), sid);
    TagsOf(n, ts, TakeTurn, sid, TurnFramesOf(n.s.queues[p], sid));
  }

  lemma TurnTells(n: Net, ts: seq<Tagged>, n': Net, p: Prio, sid: Sid)
    requires AllTold(n, ts) && Next(n.s) == Some(p) && n' == Apply(n, TakeTurn)
    ensures Told(n', ts + TaggedBy(n, TakeTurn), sid)
  {
    assert Told(n, ts, sid) && ItemInPlace(n, p, n.s.queues[p][0].sid);
    TurnEmits(n, ts, p, sid);
    TurnLeft(n, n', p, sid);
    MovesOver(n, ts, n', ts + TaggedBy(n, TakeTurn), TurnFramesOf(n.s.queues[p], sid), sid);
  }

  lemma MovesOver(n: Net, ts: seq<Tagged>, n': Net, ts': seq<Tagged>, fs: seq<Frame>, sid: Sid)
    requires Told(n, ts, sid) && n'.sent == n.sent
    requires n'.prioOf == n.prioOf && n'.joined == n.joined && n'.closed == n.closed
    requires Of(ts', sid) == Of(ts, sid) + fs && Left(n, sid) == fs + Left(n', sid)
    requires sid !in n.prioOf || sid in n.closed ==> fs == []
    ensures Told(n', ts', sid)
  {
    if sid in n.prioOf {
      BodyGrows(n, Of(ts, sid), fs, sid);
      Joined(Body(n, Of(ts, sid), sid), fs, Left(n', sid));
    }
  }

  lemma TurnInPlace(n: Net, n': Net)
    requires InPlace(n) && n' == Apply(n, TakeTurn)
    ensures InPlace(n')
  {
    if Next(n.s).Some? {
      var p := Next(n.s).value;
      forall r: Prio, i | 0 <= i < |n'.s.queues[r]| ensures ItemInPlace(n', r, n'.s.queues[r][i].sid) {
        var j := if r == p && Finishes(n.s.queues[p][0].msg) then i + 1 else i;
        assert n'.s.queues[r][i].sid == n.s.queues[r][j].sid;
        assert ItemInPlace(n, r, n.s.queues[r][j].sid);
      }
    }
  }

  lemma OthersInPlace(n: Net, op: NetOp, n': Net)
    requires InPlace(n) && !op.TakeTurn? && Enabled(n, op) && n' == Apply(n, op)
    ensures InPlace(n')
  {
    forall r: Prio, i | 0 <= i < |n'.s.queues[r]| ensures ItemInPlace(n', r, n'.s.queues[r][i].sid) {
      if i < |n.s.queues[r]| { assert ItemInPlace(n, r, n.s.queues[r][i].sid); }
      if op.Close? { CountAllZero(n.s.queues, op.sid); CountInZero(n.s.queues[r], op.sid); }
    }
  }

  lemma StepTells(n: Net, ts: seq<Tagged>, op: NetOp, n': Net)
    requires AllTold(n, ts) && Enabled(n, op) && n' == Apply(n, op)
    ensures AllTold(n', ts + TaggedBy(n, op))
  {
    if op.TakeTurn? { TurnValid(n.s); TurnInPlace(n, n'); } else { OthersInPlace(n, op, n'); }
    if op.Post? {
      EnqueueValid(n.s, n.prioOf[op.sid], Item(op.sid, OutgoingMessage(op.buffer, 0, op.mid, op.sid)));
    }
    forall sid: Sid ensures Told(n', ts + TaggedBy(n, op), sid) {
      assert Told(n, ts, sid);
      match op
      case Open(_, _, _, _) => OpenTells(n, ts, op, n', sid);
      case Post(_, _, _) => PostTells(n, ts, op, n', sid);
      case Close(_) => CloseTells(n, ts, op, n', sid);
      case AskFlush(_, _) => assert ts + TaggedBy(n, op) == ts;
      case TakeTurn => if Next(n.s).Some? { TurnTells(n, ts, n', Next(n.s).value, sid); } else { assert ts + [] == ts; }
    }
  }

  // ----- whole runs -----

  lemma StartTold()
    ensures AllTold(Start(), [])
  {
  }

  lemma {:induction false} RunTells(n: Net, ts: seq<Tagged>, ops: seq<NetOp>)
    requires AllTold(n, ts) && Legal(n, ops)
    ensures AllTold(RunNet(n, ops), ts + Emitted(n, ops))
    decreases |ops|
  {
    if ops == [] {
      assert ts + [] == ts;
    } else {
      var n', now, later := Apply(n, ops[0]), TaggedBy(n, ops[0]), Emitted(Apply(n, ops[0]), ops[1..]);
      StepTells(n, ts, ops[0], n');
      RunTells(n', ts + now, ops[1..]);
      assert ts + now + later == ts + (now + later);
    }
  }

  lemma TaggedWire(n: Net, op: NetOp)
    requires Enabled(n, op)
    ensures Apply(n, op).wire == n.wire + Untagged(TaggedBy(n, op))
  {
    if op.TakeTurn? && Next(n.s).Some? {
      var item := n.s.queues[Next(n.s).value][0];
      OfTag(item.sid, NextFrames(item.msg), item.sid);
    }
  }

  /** The frames on the wire are those emitted, without their streams. */
  lemma {:induction false} WireIsEmitted(n: Net, ops: seq<NetOp>)
    requires Legal(n, ops)
    ensures RunNet(n, ops).wire == n.wire + Untagged(Emitted(n, ops))
    decreases |ops|
  {
    if ops != [] {
      var n', now, later := Apply(n, ops[0]), TaggedBy(n, ops[0]), Emitted(Apply(n, ops[0]), ops[1..]);
      TaggedWire(n, ops[0]);
      WireIsEmitted(n', ops[1..]);
      UntaggedJoin(now, later);
      Joined(n.wire, Untagged(now), Untagged(later));
    }
  }

  /**
   * At every moment of any run: the frames of a stream are the one that opens it, if this side did, and
   * the first fragments of its messages, in the order the messages were posted.
   */
  lemma FramesInOrder(ops: seq<NetOp>, sid: Sid, n: Net, fs: seq<Frame>)
    requires Legal(Start(), ops) && n == RunNet(Start(), ops) && fs == Of(Emitted(Start(), ops), sid)
    requires sid in n.prioOf && sid !in n.closed
    ensures Opens(n, fs, sid) && Body(n, fs, sid) + Left(n, sid) == Script(n.sent, sid)
  {
    StartTold();
    RunTells(Start(), [], ops);
    assert [] + Emitted(Start(), ops) == Emitted(Start(), ops);
    assert Told(n, Emitted(Start(), ops), sid);
  }

  lemma {:induction false} ScriptNone(ms: seq<Outgoing>, sid: Sid)
    requires forall i :: 0 <= i < |ms| ==> ms[i].sid != sid
    ensures Script(ms, sid) == []
  {
    if ms != [] { ScriptNone(ms[1..], sid); }
  }

  /** The frames that the steps `ops` of a participant hand to the channel, with their streams. */
  function EmittedBy(offset: Sid, ops: seq<Sending.LocalOp>): seq<Tagged>
    requires C.Can(C.Begin(offset), ops)
  {
    C.NetRunLegal(C.Begin(offset), ops);
    Emitted(Start(), C.NetRun(C.Begin(offset), ops))
  }

  /**
   * A graceful close comes last, whatever the message ids are. Once a stream is closed, its frames are
   * the one that opens it, if this side did, all fragments of all messages that `send_raw` accepted on
   * it, in order, and `CloseStream`; and these are frames handed to the channel.
   */
  lemma CloseComesLast(offset: Sid, ops: seq<Sending.LocalOp>, sid: Sid, l: C.Local, ts: seq<Tagged>)
    requires C.Reached(offset, ops, l) && sid in l.net.closed && ts == EmittedBy(offset, ops)
    ensures Untagged(ts) == l.f.outgoing && Opens(l.net, Of(ts, sid), sid)
    ensures Body(l.net, Of(ts, sid), sid) == Script(l.accepted, sid) + [CloseStream(sid)]
  {
    var run := C.NetRun(C.Begin(offset), ops);
    C.NetRunLegal(C.Begin(offset), ops);
    C.ReachedValid(offset, ops, l);
    StartTold();
    RunTells(Start(), [], run);
    WireIsEmitted(Start(), run);
    assert [] + ts == ts && [] + Untagged(ts) == Untagged(ts);
    assert Told(l.net, ts, sid);
    AcceptedIsSent(l, sid);
  }

  lemma AcceptedIsSent(l: C.Local, sid: Sid)
    requires C.LInv(l) && sid in l.net.closed
    ensures Script(l.accepted, sid) == Script(l.net.sent, sid)
  {
    ScriptNone(C.Messages(l.f.posted), sid);
    ScriptJoin(l.net.sent, C.Messages(l.f.posted), sid);
  }
}
