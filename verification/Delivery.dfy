/** End to end: what one participant sends and what the other one's streams receive. */
module Delivery {
  import opened Types
  import opened Message
  import opened Prios
  import opened Reassembly
  import Sending

  type Buffer = Sending.Buffer

  // ----- the system of a sender, a wire and a receiver -----

  /**
   * `sent` lists the messages posted so far, `wire` the frames put on the wire, and `rx` is the
   * receiver after those frames. `joined` are the streams that the receiver's side opened: it knows
   * them without a frame, and messages are sent back on them. `started` counts the messages whose
   * header was emitted, `lost` the headers that arrived for a message id still in use.
   */
  datatype Net = Net(
    s: Sched,
    sent: seq<Outgoing>,
    wire: seq<Frame>,
    rx: Rx,
    prioOf: map<Sid, Prio>,
    joined: set<Sid>,
    closed: set<Sid>,
    started: nat,
    lost: nat)

  function Start(): Net { Net(Initial(), [], [], NO_RX, map[], {}, {}, 0, 0) }

  /** Which side opened a stream: the one whose messages are followed here, or the other one. */
  datatype Opener = Us | Peer

  datatype NetOp =
    | Open(sid: Sid, prio: Prio, promises: Promises, opener: Opener)
    | Post(sid: Sid, mid: Mid, buffer: Buffer)
    | AskFlush(sid: Sid, token: Token)
    | TakeTurn
    | Close(sid: Sid)

  /** Streams are opened once, used only while open, and closed only when nothing of theirs is queued. */
  predicate Enabled(n: Net, op: NetOp) {
    match op
    case Open(sid, _, _, _) => sid !in n.prioOf
    case Post(sid, _, _) => sid in n.prioOf && sid !in n.closed
    case Close(sid) => sid in n.prioOf && sid !in n.closed && CountAll(n.s.queues, sid) == 0
    case _ => true
  }

  /** The message of the next turn, if there is one. */
  function NextMessage(s: Sched): Option<Outgoing> {
    match Next(s)
    case None => None
    case Some(p) => Some(s.queues[p][0].msg)
  }

  predicate Starts(s: Sched) {
    NextMessage(s).Some? && NextMessage(s).value.cursor == 0 && NextMessage(s).value.buffer != []
  }

  /** The frames a turn puts on the wire. */
  function TurnFrames(s: Sched): (fs: seq<Frame>)
    ensures AllExpected(fs) && fs == Turn(s).frames
  {
    if NextMessage(s).Some? then FragmentsExpected(NextMessage(s).value); Turn(s).frames else []
  }

  function Apply(n: Net, op: NetOp): Net
    requires Enabled(n, op)
  {
    match op
    case Open(sid, prio, promises, opener) =>
      var f := OpenStream(sid, prio, promises);
      n.(wire := n.wire + if opener == Us then [f] else [], rx := Receive(n.rx, f), prioOf := n.prioOf[sid := prio],
         joined := n.joined + if opener == Us then {} else {sid})
    case Post(sid, mid, buffer) =>
      var msg := OutgoingMessage(buffer, 0, mid, sid);
      n.(s := Enqueue(n.s, n.prioOf[sid], Item(sid, msg)), sent := n.sent + [msg])
    case AskFlush(sid, token) => n.(s := RequestFlush(n.s, sid, token).s)
    case TakeTurn =>
      var fs := TurnFrames(n.s);
      n.(s := Turn(n.s).s, wire := n.wire + fs, rx := ReceiveAll(n.rx, fs),
         started := n.started + if Starts(n.s) then 1 else 0,
         lost := n.lost + if Starts(n.s) && NextMessage(n.s).value.mid in n.rx.messages then 1 else 0)
    case Close(sid) =>
      var f := CloseStream(sid);
      n.(wire := n.wire + [f], rx := Receive(n.rx, f), closed := n.closed + {sid})
  }

  predicate Legal(n: Net, ops: seq<NetOp>)
    decreases |ops|
  {
    ops == [] || (Enabled(n, ops[0]) && Legal(Apply(n, ops[0]), ops[1..]))
  }

  function RunNet(n: Net, ops: seq<NetOp>): Net
    requires Legal(n, ops)
    decreases |ops|
  {
    if ops == [] then n else RunNet(Apply(n, ops[0]), ops[1..])
  }

  // ----- message ids in flight -----

  /** The first message of queue `p` has been emitted in part. */
  predicate Partial(s: Sched, p: Prio) { s.queues[p] != [] && s.queues[p][0].msg.cursor > 0 }

  /** The next turn starts a message whose id is that of a message emitted in part. */
  ghost predicate Clash(s: Sched) {
    Starts(s) && exists q: Prio :: Partial(s, q) && s.queues[q][0].msg.mid == NextMessage(s).value.mid
  }

  ghost predicate ClashFree(n: Net, ops: seq<NetOp>)
    requires Legal(n, ops)
    decreases |ops|
  {
    ops == [] || ((ops[0].TakeTurn? ==> !Clash(n.s)) && ClashFree(Apply(n, ops[0]), ops[1..]))
  }

  // ----- what a stream was given and what it got -----

  /** The non-empty messages of `sid`, in order. */
  function Given(ms: seq<Outgoing>, sid: Sid): seq<Payload> {
    if ms == [] then []
    else (if ms[0].sid == sid && ms[0].buffer != [] then [Payload(ms[0].mid, ms[0].buffer)] else [])
         + Given(ms[1..], sid)
  }

  function Queued(q: Queue, sid: Sid): seq<Payload> {
    if q == [] then []
    else (if q[0].sid == sid && q[0].msg.buffer != [] then [Payload(q[0].msg.mid, q[0].msg.buffer)] else [])
         + Queued(q[1..], sid)
  }

  lemma {:induction false} GivenAppend(ms: seq<Outgoing>, m: Outgoing, sid: Sid)
    ensures Given(ms + [m], sid) == Given(ms, sid) + Given([m], sid)
  {
    var last := [m];
    if ms == [] {
      assert ms + last == last;
    } else {
      var first, rest := ms[0], ms[1..];
      var head := if first.sid == sid && first.buffer != [] then [Payload(first.mid, first.buffer)] else [];
      assert (ms + last)[0] == first && (ms + last)[1..] == rest + last;
      GivenAppend(rest, m, sid);
      Joined(head, Given(rest, sid), Given(last, sid));
    }
  }

  lemma {:induction false} QueuedAppend(q: Queue, item: Item, sid: Sid)
    ensures Queued(q + [item], sid) == Queued(q, sid) + Queued([item], sid)
  {
    var last := [item];
    if q == [] {
      assert q + last == last;
    } else {
      var first, rest := q[0], q[1..];
      var head := if first.sid == sid && first.msg.buffer != [] then [Payload(first.msg.mid, first.msg.buffer)] else [];
      assert (q + last)[0] == first && (q + last)[1..] == rest + last;
      QueuedAppend(rest, item, sid);
      Joined(head, Queued(rest, sid), Queued(last, sid));
    }
  }

  lemma {:induction false} NothingQueued(q: Queue, sid: Sid)
    requires CountIn(q, sid) == 0
    ensures Queued(q, sid) == []
  {
    if q != [] { NothingQueued(q[1..], sid); }
  }

  // ----- the invariant of clash-free runs -----

  /** Every queued message belongs to an open stream, at that stream's priority. */
  ghost predicate Placed(n: Net) {
    && (forall p: Prio, i :: 0 <= i < |n.s.queues[p]| ==>
          var sid := n.s.queues[p][i].sid; sid in n.prioOf && n.prioOf[sid] == p && sid !in n.closed)
    && (forall sid :: sid in n.prioOf && sid !in n.closed ==> sid in n.rx.streams && n.rx.streams[sid].recvOpen)
  }

  /** Every message emitted in part is in the table, as far as it was emitted. */
  ghost predicate Listed(s: Sched, rx: Rx) {
    forall p: Prio :: Partial(s, p) ==> InStep(rx, s.queues[p][0].msg)
  }

  /** The table holds nothing else. */
  ghost predicate NothingElse(s: Sched, rx: Rx) {
    forall mid :: mid in rx.messages ==> exists p: Prio :: Partial(s, p) && s.queues[p][0].msg.mid == mid
  }

  ghost predicate Distinct(s: Sched) {
    forall p: Prio, q: Prio :: p != q && Partial(s, p) && Partial(s, q) ==>
      s.queues[p][0].msg.mid != s.queues[q][0].msg.mid
  }

  /** The table holds exactly the messages emitted in part, each as far as it was emitted. */
  ghost predicate Tabled(s: Sched, rx: Rx) { Listed(s, rx) && NothingElse(s, rx) && Distinct(s) }

  /** The messages of `sid` that are still queued. */
  function Pending(n: Net, sid: Sid): seq<Payload> {
    if sid in n.prioOf then Queued(n.s.queues[n.prioOf[sid]], sid) else []
  }

  /** Conservation: what was posted on a stream is what it got followed by what is still queued. */
  ghost predicate Conserved(n: Net) {
    forall sid: Sid :: Given(n.sent, sid) == Obtained(n.rx.delivered, sid) + Pending(n, sid)
  }

  ghost predicate Inv(n: Net) {
    SchedValid(n.s) && Placed(n) && Tabled(n.s, n.rx) && Conserved(n)
  }

  // ----- one turn -----

  /** What a complete message looks like on arrival. */
  function Complete(m: Outgoing): IncomingMessage { IncomingMessage(m.buffer, |m.buffer|, m.mid, m.sid) }

  /** The receiver after the next frames of `m`, which it knows as far as `m` was emitted. */
  function Absorbed(rx: Rx, m: Outgoing): Rx {
    if m.buffer == [] then rx
    else if Finishes(m) then rx.(messages := rx.messages - {m.mid}, delivered := rx.delivered + [Complete(m)])
    else rx.(messages := rx.messages[m.mid := Received(Advanced(m))])
  }

  /** `n'` is `n` after a turn of queue `p`, whose first message is `m`. */
  ghost predicate Moved(n: Net, n': Net, p: Prio, m: Outgoing) {
    && FrontMoved(n.s, n'.s, p, m)
    && n'.sent == n.sent && n'.prioOf == n.prioOf && n'.closed == n.closed
    && n'.rx == Absorbed(n.rx, m)
  }

  ghost predicate FrontMoved(s: Sched, s': Sched, p: Prio, m: Outgoing) {
    && s.queues[p] != [] && s.queues[p][0] == Item(m.sid, m)
    && (m.buffer != [] ==> m.cursor < |m.buffer|)
    && (forall i :: 1 <= i < |s.queues[p]| ==> s.queues[p][i].msg.cursor == 0)
    && (forall r: Prio :: r != p ==> s'.queues[r] == s.queues[r])
    && s'.queues[p] == (if Finishes(m) then [] else [Item(m.sid, Advanced(m))]) + s.queues[p][1..]
  }

  lemma FrontMoves(s: Sched, s': Sched, p: Prio, m: Outgoing)
    requires SchedValid(s) && s.queues[p] != [] && m == s.queues[p][0].msg && s' == Serve(s, p).s
    ensures FrontMoved(s, s', p, m)
  {
    assert QueueValid(s.queues[p]);
  }

  lemma TurnAbsorbed(n: Net, p: Prio, m: Outgoing)
    requires SchedValid(n.s) && Placed(n) && InStep(n.rx, m)
    requires n.s.queues[p] != [] && m == n.s.queues[p][0].msg
    ensures AllExpected(NextFrames(m)) && ReceiveAll(n.rx, NextFrames(m)) == Absorbed(n.rx, m)
  {
    FragmentsExpected(m);
    assert QueueValid(n.s.queues[p]) && n.s.queues[p][0].sid == m.sid;
    if m.buffer != [] {
      ReceiveFragment(n.rx, m);
      assert m.buffer[..|m.buffer|] == m.buffer;
    }
  }

  lemma TurnMoves(n: Net, n': Net, p: Prio, m: Outgoing)
    requires IsNext(n.s, p) && m == n.s.queues[p][0].msg && n' == Apply(n, TakeTurn)
    requires SchedValid(n.s) && Placed(n) && InStep(n.rx, m)
    ensures Moved(n, n', p, m)
  {
    NextUnique(n.s, p);
    FrontMoves(n.s, n'.s, p, m);
    TurnAbsorbed(n, p, m);
    assert TurnFrames(n.s) == NextFrames(m);
  }

  lemma TurnPlaced(n: Net, n': Net, p: Prio, m: Outgoing)
    requires Moved(n, n', p, m) && Placed(n)
    ensures Placed(n')
  {
  }

  /** No other queue has a message with the id of `m` emitted in part. */
  ghost predicate Alone(s: Sched, p: Prio, m: Outgoing) {
    forall q: Prio :: q != p && Partial(s, q) ==> s.queues[q][0].msg.mid != m.mid
  }

  lemma TurnListed(n: Net, n': Net, p: Prio, m: Outgoing)
    requires Moved(n, n', p, m) && Listed(n.s, n.rx) && (m.buffer != [] ==> Alone(n.s, p, m))
    ensures Listed(n'.s, n'.rx)
  {
  }

  lemma TurnNothingElse(n: Net, n': Net, p: Prio, m: Outgoing)
    requires Moved(n, n', p, m) && NothingElse(n.s, n.rx)
    ensures NothingElse(n'.s, n'.rx)
  {
  }

  lemma TurnDistinct(n: Net, n': Net, p: Prio, m: Outgoing)
    requires Moved(n, n', p, m) && Distinct(n.s) && (m.buffer != [] ==> Alone(n.s, p, m))
    ensures Distinct(n'.s)
  {
  }

  /** What stream `sid` gets from a turn of `m`. */
  function Gain(m: Outgoing, sid: Sid): seq<Payload> {
    if Finishes(m) && m.buffer != [] && m.sid == sid then [Payload(m.mid, m.buffer)] else []
  }

  /** Only the front of the queue counts for what is pending. */
  lemma QueuedFront(q: Queue, q': Queue, m: Outgoing, sid: Sid)
    requires q != [] && q[0] == Item(m.sid, m)
    requires q' == (if Finishes(m) then [] else [Item(m.sid, Advanced(m))]) + q[1..]
    ensures Queued(q, sid) == Gain(m, sid) + Queued(q', sid)
  {
    if Finishes(m) {
      assert q' == q[1..];
    } else {
      assert q'[1..] == q[1..];
    }
  }

  lemma TurnPending(n: Net, n': Net, p: Prio, m: Outgoing, sid: Sid)
    requires Moved(n, n', p, m) && Placed(n)
    ensures Pending(n, sid) == Gain(m, sid) + Pending(n', sid)
  {
    assert m.sid in n.prioOf && n.prioOf[m.sid] == p by { assert n.s.queues[p][0].sid == m.sid; }
    QueuedFront(n.s.queues[p], n'.s.queues[p], m, sid);
  }

  lemma TurnObtained(rx: Rx, m: Outgoing, sid: Sid)
    ensures Obtained(Absorbed(rx, m).delivered, sid) == Obtained(rx.delivered, sid) + Gain(m, sid)
  {
    if Finishes(m) && m.buffer != [] {
      ObtainedAppend(rx.delivered, Complete(m), sid);
      assert Obtained([Complete(m)], sid) == Gain(m, sid);
    }
  }

  lemma TurnConserved(n: Net, n': Net, p: Prio, m: Outgoing)
    requires Moved(n, n', p, m) && Conserved(n) && Placed(n)
    ensures Conserved(n')
  {
    forall sid: Sid ensures Given(n.sent, sid) == Obtained(n'.rx.delivered, sid) + Pending(n', sid) {
      TurnPending(n, n', p, m, sid);
      TurnObtained(n.rx, m, sid);
      Joined(Obtained(n.rx.delivered, sid), Gain(m, sid), Pending(n', sid));
    }
  }

  lemma MovedKeeps(n: Net, n': Net, p: Prio, m: Outgoing)
    requires Moved(n, n', p, m) && Placed(n) && Tabled(n.s, n.rx) && Conserved(n)
    requires m.buffer != [] ==> Alone(n.s, p, m)
    ensures Placed(n') && Tabled(n'.s, n'.rx) && Conserved(n')
  {
    TurnPlaced(n, n', p, m);
    TurnListed(n, n', p, m);
    TurnNothingElse(n, n', p, m);
    TurnDistinct(n, n', p, m);
    TurnConserved(n, n', p, m);
  }

  lemma NoClashAlone(s: Sched, p: Prio, m: Outgoing)
    requires Next(s) == Some(p) && m == s.queues[p][0].msg && Distinct(s) && !Clash(s)
    requires m.buffer != []
    ensures Alone(s, p, m)
  {
  }

  lemma IdleKeeps(n: Net, n': Net)
    requires Inv(n) && Next(n.s) == None && n' == Apply(n, TakeTurn)
    ensures Inv(n')
  {
  }

  lemma BusyKeeps(n: Net, n': Net, p: Prio)
    requires Inv(n) && Next(n.s) == Some(p) && !Clash(n.s) && n' == Apply(n, TakeTurn)
    ensures Placed(n') && Tabled(n'.s, n'.rx) && Conserved(n')
  {
    var m := n.s.queues[p][0].msg;
    assert InStep(n.rx, m) by { assert m.cursor > 0 ==> Partial(n.s, p); }
    if m.buffer != [] { NoClashAlone(n.s, p, m); }
    TurnMoves(n, n', p, m);
    MovedKeeps(n, n', p, m);
  }

  lemma TurnKeeps(n: Net, n': Net)
    requires Inv(n) && !Clash(n.s) && n' == Apply(n, TakeTurn)
    ensures Inv(n')
  {
    var next := Next(n.s);
    if next == None {
      IdleKeeps(n, n');
    } else {
      BusyKeeps(n, n', next.value);
      assert SchedValid(n'.s) by { TurnValid(n.s); }
    }
  }

  // ----- the other steps -----

  /** Steps that leave the fronts of the queues alone keep the table in order. */
  lemma SameFronts(s: Sched, s': Sched, rx: Rx, rx': Rx)
    requires Tabled(s, rx) && rx'.messages == rx.messages
    requires forall p: Prio :: Partial(s', p) <==> Partial(s, p)
    requires forall p: Prio :: Partial(s, p) && Partial(s', p) ==> s'.queues[p][0] == s.queues[p][0]
    ensures Tabled(s', rx')
  {
  }

  lemma NothingOf(n: Net, sid: Sid, p: Prio)
    requires forall i :: 0 <= i < |n.s.queues[p]| ==> n.s.queues[p][i].sid != sid
    ensures Queued(n.s.queues[p], sid) == []
  {
    CountInZero(n.s.queues[p], sid);
    NothingQueued(n.s.queues[p], sid);
  }

  lemma OpenKeeps(n: Net, n': Net, op: NetOp)
    requires Inv(n) && op.Open? && Enabled(n, op) && n' == Apply(n, op)
    ensures Inv(n')
  {
    NothingOf(n, op.sid, op.prio);
    SameFronts(n.s, n'.s, n.rx, n'.rx);
  }

  lemma CloseKeeps(n: Net, n': Net, op: NetOp)
    requires Inv(n) && op.Close? && Enabled(n, op) && n' == Apply(n, op)
    ensures Inv(n')
  {
    CountAllZero(n.s.queues, op.sid);
    forall p: Prio, i | 0 <= i < |n.s.queues[p]| ensures n.s.queues[p][i].sid != op.sid {
      CountInZero(n.s.queues[p], op.sid);
    }
    SameFronts(n.s, n'.s, n.rx, n'.rx);
  }

  lemma FlushKeeps(n: Net, n': Net, op: NetOp)
    requires Inv(n) && op.AskFlush? && n' == Apply(n, op)
    ensures Inv(n')
  {
    SameFronts(n.s, n'.s, n.rx, n'.rx);
  }

  lemma PostPlaced(n: Net, n': Net, op: NetOp)
    requires Inv(n) && op.Post? && Enabled(n, op) && n' == Apply(n, op)
    ensures Placed(n')
  {
    var p := n.prioOf[op.sid];
    var item := Item(op.sid, OutgoingMessage(op.buffer, 0, op.mid, op.sid));
    assert n'.s.queues[p] == n.s.queues[p] + [item];
    assert forall r: Prio :: r != p ==> n'.s.queues[r] == n.s.queues[r];
  }

  lemma PostTabled(n: Net, n': Net, op: NetOp)
    requires Inv(n) && op.Post? && Enabled(n, op) && n' == Apply(n, op)
    ensures Tabled(n'.s, n'.rx)
  {
    var p := n.prioOf[op.sid];
    assert forall r: Prio :: r != p ==> n'.s.queues[r] == n.s.queues[r];
    assert Partial(n'.s, p) <==> Partial(n.s, p);
    SameFronts(n.s, n'.s, n.rx, n'.rx);
  }

  lemma PostConserved(n: Net, n': Net, op: NetOp)
    requires Inv(n) && op.Post? && Enabled(n, op) && n' == Apply(n, op)
    ensures Conserved(n')
  {
    var msg := OutgoingMessage(op.buffer, 0, op.mid, op.sid);
    forall sid: Sid ensures Given(n'.sent, sid) == Obtained(n'.rx.delivered, sid) + Pending(n', sid) {
      GivenAppend(n.sent, msg, sid);
      PostPending(n, n', op, sid, msg);
      Joined(Obtained(n.rx.delivered, sid), Pending(n, sid), Given([msg], sid));
    }
  }

  lemma PostPending(n: Net, n': Net, op: NetOp, sid: Sid, msg: Outgoing)
    requires op.Post? && Enabled(n, op) && n' == Apply(n, op) && msg == OutgoingMessage(op.buffer, 0, op.mid, op.sid)
    ensures Pending(n', sid) == Pending(n, sid) + Given([msg], sid)
  {
    if sid in n.prioOf && n.prioOf[sid] == n.prioOf[op.sid] {
      QueuedAppend(n.s.queues[n.prioOf[sid]], Item(op.sid, msg), sid);
    }
  }

  lemma StepKeeps(n: Net, n': Net, op: NetOp)
    requires Inv(n) && Enabled(n, op) && n' == Apply(n, op)
    requires op.TakeTurn? ==> !Clash(n.s)
    ensures Inv(n')
  {
    match op
    case Open(_, _, _, _) => OpenKeeps(n, n', op);
    case Post(sid, mid, buffer) =>
      EnqueueValid(n.s, n.prioOf[sid], Item(sid, OutgoingMessage(buffer, 0, mid, sid)));
      PostPlaced(n, n', op);
      PostTabled(n, n', op);
      PostConserved(n, n', op);
    case AskFlush(_, _) => FlushKeeps(n, n', op);
    case TakeTurn => TurnKeeps(n, n');
    case Close(_) => CloseKeeps(n, n', op);
  }

  lemma StartInv()
    ensures Inv(Start())
  {
  }
}
