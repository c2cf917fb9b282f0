/**
 * The sending side of a participant: opening streams, posting messages, and the graceful close of
 * `stream_close_mgr`, which waits for a flush before it tells the other side.
 */
module Closing {
  import opened Types
  import opened Message
  import opened Prios
  import S = Scheduling
  import opened Flushing
  import opened Reassembly
  import opened Delivery
  import opened Sending
  import E = EndToEnd

  /**
   * `f` are the fields of the managers; `net` is their scheduler with the wire and the receiver behind
   * it; `accepted` lists the messages that `send_raw` took.
   */
  datatype Local = Local(net: Net, f: Fields, accepted: seq<Outgoing>)

  function Begin(offset: Sid): Local { Local(Start(), Fresh(offset), []) }

  /** The managers and the net speak of the same scheduler, streams and frames. */
  predicate Agrees(l: Local) { l.f.s == l.net.s && l.f.prioOf == l.net.prioOf && l.f.outgoing == l.net.wire }

  // ----- what the steps do to the net -----

  function Posts(posted: seq<Posted>): seq<NetOp> {
    seq(|posted|, i requires 0 <= i < |posted| =>
      var m := posted[i].item.msg; Post(posted[i].item.sid, m.mid, m.buffer))
  }

  function Asks(requests: seq<FlushRequest>): seq<NetOp> {
    seq(|requests|, i requires 0 <= i < |requests| => AskFlush(requests[i].sid, requests[i].token))
  }

  function NetOps(l: Local, op: LocalOp): seq<NetOp>
    requires CanStep(l.f, op)
  {
    match op
    case OpenStream(prio, promises) => [NetOp.Open(l.f.nextSid, prio, promises, Us)]
    case PeerOpened(sid, prio, promises) => [NetOp.Open(sid, prio, promises, Peer)]
    case FillAndSend(n) => Posts(l.f.posted) + (Asks(l.f.requests) + E.TakeTurns(n))
    case FinishClose => [Close(l.f.closing.value.sid)]
    case _ => []
  }

  // ----- the invariant -----

  /** A posted message is unsent, belongs to a stream that is not closed, and carries its priority. */
  ghost predicate PostedValid(l: Local) { Postable(l.net, l.f.posted) }

  function Messages(posted: seq<Posted>): seq<Outgoing> {
    seq(|posted|, i requires 0 <= i < |posted| => posted[i].item.msg)
  }

  ghost predicate NonePosted(l: Local, sid: Sid) {
    forall i :: 0 <= i < |l.f.posted| ==> l.f.posted[i].item.sid != sid
  }

  /** The flush of `sid` is either still waited for, or done with nothing of `sid` left. */
  ghost predicate Settled(s: Sched, done: bool, sid: Sid, t: Token) {
    if done then CountAll(s.queues, sid) == 0 && t !in s.waiting.Values else WaitsFor(s, sid, t)
  }

  /** Where the flush of the stream being closed stands: asked for, waited for, or done. */
  ghost predicate FlushState(l: Local, sid: Sid, t: Token) {
    if l.f.requests != [] then
      l.f.requests == [FlushRequest(sid, t)] && t !in l.f.fired && t !in l.net.s.waiting.Values
    else
      && NonePosted(l, sid)
      && Settled(l.net.s, t in l.f.fired, sid, t)
  }

  /** Streams: known ones have counters, closed ones were shut for the API and let go of by their owners. */
  ghost predicate StreamsValid(l: Local) {
    && l.f.mids.Keys == l.net.prioOf.Keys
    && (forall sid :: sid in l.net.prioOf ==> sid < l.f.nextSid || sid in l.net.joined)
    && l.net.closed <= l.f.sendClosed <= l.f.mids.Keys
    && l.net.closed <= l.f.dropped <= l.f.mids.Keys
  }

  /** Flush senders are numbered as they are handed out. */
  ghost predicate TokensValid(l: Local) {
    && (forall t :: t in l.f.fired ==> t < l.f.nextToken)
    && (forall sid :: sid in l.net.s.waiting ==> l.net.s.waiting[sid] < l.f.nextToken)
  }

  /** Streams that wait to be closed: dropped, not yet closed, each once. */
  ghost predicate CloseQueueValid(l: Local) {
    && (forall i :: 0 <= i < |l.f.closeQueue| ==>
          l.f.closeQueue[i] in l.f.dropped && l.f.closeQueue[i] !in l.net.closed)
    && (forall i, j :: 0 <= i < j < |l.f.closeQueue| ==> l.f.closeQueue[i] != l.f.closeQueue[j])
  }

  ghost predicate ClosingValid(l: Local) {
    match l.f.closing
    case None => l.f.requests == []
    case Some(Pending(sid, t)) =>
      && sid in l.net.prioOf && sid in l.f.sendClosed && sid in l.f.dropped && sid !in l.net.closed
      && sid !in l.f.closeQueue
      && t < l.f.nextToken && FlushState(l, sid, t)
  }

  ghost predicate LInv(l: Local) {
    && Agrees(l) && SchedValid(l.net.s) && PostedValid(l)
    && l.accepted == l.net.sent + Messages(l.f.posted)
    && StreamsValid(l) && TokensValid(l) && CloseQueueValid(l) && ClosingValid(l)
  }

  // ----- one call of fill_frames, with the frames sent at once -----

  /** A legal run that leads the scheduler to `s`, posts `sent`, emits `frames`, and opens and closes nothing. */
  ghost predicate RunsTo(n: Net, ops: seq<NetOp>, s: Sched, sent: seq<Outgoing>, frames: seq<Frame>) {
    && Legal(n, ops)
    && RunNet(n, ops).s == s && RunNet(n, ops).sent == n.sent + sent && RunNet(n, ops).wire == n.wire + frames
    && RunNet(n, ops).prioOf == n.prioOf && RunNet(n, ops).joined == n.joined && RunNet(n, ops).closed == n.closed
  }

  /** A run that emits nothing, followed by one that posts nothing. */
  lemma Compose(n: Net, a: seq<NetOp>, b: seq<NetOp>, n1: Net, s: Sched, s': Sched, sent: seq<Outgoing>,
                g: seq<Frame>)
    requires RunsTo(n, a, s, sent, []) && n1 == RunNet(n, a) && RunsTo(n1, b, s', [], g)
    ensures RunsTo(n, a + b, s', sent, g)
  {
    E.RunNetAppend(n, a, b);
    assert n.wire + [] == n.wire && n1.sent + [] == n1.sent;
  }

  lemma First(n: Net, op: NetOp, ops: seq<NetOp>, n': Net, s: Sched,
              a: seq<Outgoing>, b: seq<Outgoing>, f: seq<Frame>, g: seq<Frame>)
    requires ops != [] && ops[0] == op
    requires Enabled(n, op) && n' == Apply(n, op) && RunsTo(n', ops[1..], s, b, g)
    requires n'.prioOf == n.prioOf && n'.joined == n.joined && n'.closed == n.closed
    requires n'.wire == n.wire + f && n'.sent == n.sent + a
    ensures RunsTo(n, ops, s, a + b, f + g)
  {
    assert n.wire + f + g == n.wire + (f + g);
    assert n.sent + a + b == n.sent + (a + b);
  }

  ghost predicate Postable(n: Net, posted: seq<Posted>) {
    forall i :: 0 <= i < |posted| ==>
      var item := posted[i].item;
      && item.sid in n.prioOf && n.prioOf[item.sid] == posted[i].prio && item.sid !in n.closed
      && item.msg.sid == item.sid && item.msg.cursor == 0
  }

  lemma {:induction false} PostsRun(n: Net, posted: seq<Posted>)
    requires Postable(n, posted)
    ensures RunsTo(n, Posts(posted), EnqueueAll(n.s, posted), Messages(posted), [])
    decreases |posted|
  {
    if posted != [] {
      var m := posted[0].item.msg;
      var op := Post(posted[0].item.sid, m.mid, m.buffer);
      var n' := Apply(n, op);
      assert Posts(posted)[1..] == Posts(posted[1..]);
      assert posted[0].item == Item(m.sid, OutgoingMessage(m.buffer, 0, m.mid, m.sid));
      PostsRun(n', posted[1..]);
      assert Messages(posted) == [m] + Messages(posted[1..]);
      First(n, op, Posts(posted), n', EnqueueAll(n.s, posted), [m], Messages(posted[1..]), [], []);
    }
  }

  lemma {:induction false} AsksRun(n: Net, requests: seq<FlushRequest>)
    ensures RunsTo(n, Asks(requests), RequestAll(n.s, requests).s, [], [])
    decreases |requests|
  {
    if requests != [] {
      var op := AskFlush(requests[0].sid, requests[0].token);
      var n' := Apply(n, op);
      assert Asks(requests)[1..] == Asks(requests[1..]);
      AsksRun(n', requests[1..]);
      First(n, op, Asks(requests), n', RequestAll(n.s, requests).s, [], [], [], []);
    }
  }

  lemma TurnApplied(n: Net, n': Net)
    requires n' == Apply(n, TakeTurn)
    ensures n'.s == Turn(n.s).s && n'.wire == n.wire + Turn(n.s).frames && n'.sent == n.sent
    ensures n'.prioOf == n.prioOf && n'.joined == n.joined && n'.closed == n.closed
  {
  }

  lemma {:induction false} TurnsRun(n: Net, k: nat)
    ensures RunsTo(n, E.TakeTurns(k), Turns(n.s, k).s, [], Turns(n.s, k).frames)
    decreases k
  {
    if k > 0 {
      var n', j := Apply(n, TakeTurn), k - 1;
      assert E.TakeTurns(k)[1..] == E.TakeTurns(j);
      TurnApplied(n, n');
      TurnsRun(n', j);
      First(n, TakeTurn, E.TakeTurns(k), n', Turns(n'.s, j).s, [], [], Turn(n.s).frames, Turns(n'.s, j).frames);
    }
  }

  lemma AsksAndTurns(n: Net, requests: seq<FlushRequest>, k: nat, s: Sched, out: Out)
    requires s == RequestAll(n.s, requests).s && out == Turns(s, k)
    ensures RunsTo(n, Asks(requests) + E.TakeTurns(k), out.s, [], out.frames)
  {
    var asks, turns := Asks(requests), E.TakeTurns(k);
    AsksRun(n, requests);
    var n1 := RunNet(n, asks);
    TurnsRun(n1, k);
    Compose(n, asks, turns, n1, s, out.s, [], out.frames);
  }

  lemma PostsAsksTurns(n: Net, posted: seq<Posted>, requests: seq<FlushRequest>, k: nat, queued: Sched, s: Sched,
                       out: Out)
    requires Postable(n, posted) && queued == EnqueueAll(n.s, posted)
    requires s == RequestAll(queued, requests).s && out == Turns(s, k)
    ensures RunsTo(n, Posts(posted) + (Asks(requests) + E.TakeTurns(k)), out.s, Messages(posted), out.frames)
  {
    var posts, others := Posts(posted), Asks(requests) + E.TakeTurns(k);
    PostsRun(n, posted);
    var n1 := RunNet(n, posts);
    AsksAndTurns(n1, requests, k, s, out);
    Compose(n, posts, others, n1, queued, out.s, Messages(posted), out.frames);
  }

  lemma FillOut(s: Sched, posted: seq<Posted>, requests: seq<FlushRequest>, k: nat)
    ensures var ticked := RequestAll(EnqueueAll(s, posted), requests); var turns := Turns(ticked.s, k);
      Fill(s, posted, requests, k) == Out(turns.s, turns.frames, ticked.fired + turns.fired)
  {
    var queued := EnqueueAll(s, posted);
    RequestsEmitNothing(queued, requests);
    SilentThen(RequestAll(queued, requests), Turns(RequestAll(queued, requests).s, k));
  }

  lemma SilentThen(x: Out, y: Out)
    requires x.frames == []
    ensures x.Then(y) == Out(y.s, y.frames, x.fired + y.fired)
  {
  }

  /** `fill_frames` followed by sending its frames is a legal run of the net. */
  lemma FillRuns(l: Local, k: nat)
    requires PostedValid(l)
    ensures var out := Fill(l.net.s, l.f.posted, l.f.requests, k);
      RunsTo(l.net, NetOps(l, FillAndSend(k)), out.s, Messages(l.f.posted), out.frames)
  {
    FillOut(l.net.s, l.f.posted, l.f.requests, k);
    var queued := EnqueueAll(l.net.s, l.f.posted);
    var s := RequestAll(queued, l.f.requests).s;
    PostsAsksTurns(l.net, l.f.posted, l.f.requests, k, queued, s, Turns(s, k));
  }

  /** The channels allow the step, and what it does to the scheduler and the wire is legal. */
  predicate Permitted(l: Local, op: LocalOp) { CanStep(l.f, op) && Legal(l.net, NetOps(l, op)) }

  /** The message that `send_raw` takes. */
  function Taken(f: Fields, op: LocalOp): seq<Outgoing>
    requires CanStep(f, op)
  {
    if op.SendRaw? && op.sid !in f.sendClosed then [OutgoingMessage(op.buffer, 0, f.mids[op.sid], op.sid)] else []
  }

  function Do(l: Local, op: LocalOp): Local
    requires Permitted(l, op)
  {
    Local(RunNet(l.net, NetOps(l, op)), Step(l.f, op), l.accepted + Taken(l.f, op))
  }

  // ----- the invariant is kept -----

  lemma {:induction false} EnqueueAllKeeps(n: Net, s: Sched, posted: seq<Posted>)
    requires SchedValid(s) && Postable(n, posted)
    ensures SchedValid(EnqueueAll(s, posted)) && EnqueueAll(s, posted).waiting == s.waiting
    decreases |posted|
  {
    if posted != [] {
      EnqueueValid(s, posted[0].prio, posted[0].item);
      EnqueueAllKeeps(n, Enqueue(s, posted[0].prio, posted[0].item), posted[1..]);
    }
  }

  lemma {:induction false} EnqueueAllOthers(s: Sched, posted: seq<Posted>, sid: Sid)
    requires forall i :: 0 <= i < |posted| ==> posted[i].item.sid != sid
    ensures CountAll(EnqueueAll(s, posted).queues, sid) == CountAll(s.queues, sid)
    decreases |posted|
  {
    if posted != [] {
      var p, item := posted[0].prio, posted[0].item;
      CountAllUpdate(s.queues, p, s.queues[p] + [item], sid);
      CountInAppend(s.queues[p], [item], sid);
      EnqueueAllOthers(Enqueue(s, p, item), posted[1..], sid);
    }
  }

  lemma TurnSettles(s: Sched, done: bool, sid: Sid, t: Token, first: Out)
    requires SchedValid(s) && Settled(s, done, sid, t) && first == Turn(s)
    ensures SchedValid(first.s) && Settled(first.s, done || t in first.fired, sid, t)
  {
    TurnValid(s);
    if done {
      NotKept(s, S.Take, t, first);
      if Next(s).Some? { ServeCounts(s, Next(s).value, sid); }
    } else {
      FireStep(s, S.Take, sid, t, first);
    }
    assert t in first.fired <==> Fired(first.fired, t) > 0;
  }

  lemma FirstTurn(s: Sched, k: nat, out: Out, first: Out, j: nat, rest: Out)
    requires k == j + 1 && out == Turns(s, k) && first == Turn(s) && rest == Turns(first.s, j)
    ensures out == first.Then(rest)
  {
  }

  /** Turns alone either leave the flush waiting or fire it, and never queue anything for the stream. */
  lemma {:induction false} TurnsSettle(s: Sched, k: nat, done: bool, sid: Sid, t: Token, out: Out)
    requires SchedValid(s) && Settled(s, done, sid, t) && out == Turns(s, k)
    ensures SchedValid(out.s) && Settled(out.s, done || t in out.fired, sid, t)
    decreases k
  {
    if k > 0 {
      var first, j := Turn(s), k - 1;
      var rest := Turns(first.s, j);
      FirstTurn(s, k, out, first, j, rest);
      TurnSettles(s, done, sid, t, first);
      TurnsSettle(first.s, j, done || t in first.fired, sid, t, rest);
    }
  }

  lemma {:induction false} TurnsValid(s: Sched, k: nat)
    requires SchedValid(s)
    ensures SchedValid(Turns(s, k).s)
    decreases k
  {
    if k > 0 {
      TurnValid(s);
      TurnsValid(Turn(s).s, k - 1);
    }
  }

  /** Turns make no use of a flush sender that is kept nowhere. */
  lemma TurnsNeverFire(s: Sched, k: nat, t: Token)
    requires t !in s.waiting.Values
    ensures t !in Turns(s, k).fired && t !in Turns(s, k).s.waiting.Values
  {
    S.TurnsAreRun(s, k);
    NeverFires(s, S.Takes(k), t);
  }

  lemma OpenKeepsLocal(l: Local, l': Local, op: LocalOp)
    requires LInv(l) && Permitted(l, op) && op.OpenStream? && l' == Do(l, op)
    ensures LInv(l')
  {
    E.Single(l.net, Open(l.f.nextSid, op.prio, op.promises, Us));
    assert l'.net.s == l.net.s && l'.net.closed == l.net.closed;
    assert l'.net.prioOf == l.net.prioOf[l.f.nextSid := op.prio];
  }

  lemma JoinKeepsLocal(l: Local, l': Local, op: LocalOp)
    requires LInv(l) && Permitted(l, op) && op.PeerOpened? && l' == Do(l, op)
    ensures LInv(l')
  {
    E.Single(l.net, Open(op.sid, op.prio, op.promises, Peer));
    assert l'.net.s == l.net.s && l'.net.closed == l.net.closed;
    assert l'.net.prioOf == l.net.prioOf[op.sid := op.prio];
  }

  lemma SendKeepsLocal(l: Local, l': Local, op: LocalOp)
    requires LInv(l) && Permitted(l, op) && op.SendRaw? && l' == Do(l, op)
    ensures LInv(l')
  {
  }

  lemma DropKeepsLocal(l: Local, l': Local, op: LocalOp)
    requires LInv(l) && Permitted(l, op) && op.DropStream? && l' == Do(l, op)
    ensures LInv(l')
  {
  }

  lemma ApiKeepsLocal(l: Local, l': Local, op: LocalOp)
    requires LInv(l) && op.CloseApi? && l' == Do(l, op)
    ensures LInv(l')
  {
  }

  lemma BeginKeepsLocal(l: Local, l': Local, op: LocalOp)
    requires LInv(l) && Permitted(l, op) && op.BeginClose? && l' == Do(l, op)
    ensures LInv(l')
  {
  }

  lemma FinishKeepsLocal(l: Local, l': Local, op: LocalOp)
    requires LInv(l) && Permitted(l, op) && op.FinishClose? && l' == Do(l, op)
    ensures LInv(l')
  {
    E.Single(l.net, Close(l.f.closing.value.sid));
    assert l.f.requests == [];
    assert l'.net.s == l.net.s && l'.net.prioOf == l.net.prioOf;
  }

  /** The state of a flush after one call of `fill_frames`. */
  lemma FillSettles(l: Local, k: nat, sid: Sid, t: Token, out: Out)
    requires SchedValid(l.net.s) && PostedValid(l) && FlushState(l, sid, t)
    requires out == Fill(l.net.s, l.f.posted, l.f.requests, k)
    ensures Settled(out.s, t in l.f.fired || t in out.fired, sid, t)
  {
    var queued := EnqueueAll(l.net.s, l.f.posted);
    EnqueueAllKeeps(l.net, l.net.s, l.f.posted);
    FillOut(l.net.s, l.f.posted, l.f.requests, k);
    var asked := RequestAll(queued, l.f.requests);
    var turns := Turns(asked.s, k);
    if l.f.requests == [] {
      EnqueueAllOthers(l.net.s, l.f.posted, sid);
      TurnsSettle(asked.s, k, t in l.f.fired, sid, t, turns);
    } else {
      OneRequest(queued, sid, t, asked);
      TurnsSettle(asked.s, k, t in asked.fired, sid, t, turns);
    }
  }

  lemma OneRequest(s: Sched, sid: Sid, t: Token, asked: Out)
    requires SchedValid(s) && t !in s.waiting.Values && asked == RequestAll(s, [FlushRequest(sid, t)])
    ensures SchedValid(asked.s) && Settled(asked.s, t in asked.fired, sid, t)
    ensures asked.s.waiting.Values <= s.waiting.Values + {t}
    ensures forall u :: u in asked.fired ==> u == t
  {
  }

  /** After `tick`: the channels are drained, and every sender in the scheduler has been handed out. */
  lemma Ticked(l: Local, asked: Out)
    requires LInv(l) && asked == RequestAll(EnqueueAll(l.net.s, l.f.posted), l.f.requests)
    ensures SchedValid(asked.s)
    ensures forall t :: t in asked.fired || t in asked.s.waiting.Values ==> t < l.f.nextToken
  {
    EnqueueAllKeeps(l.net, l.net.s, l.f.posted);
    if l.f.requests != [] {
      OneRequest(EnqueueAll(l.net.s, l.f.posted), l.f.closing.value.sid, l.f.closing.value.token, asked);
    }
  }

  lemma FillTokens(l: Local, k: nat, out: Out)
    requires LInv(l) && out == Fill(l.net.s, l.f.posted, l.f.requests, k)
    ensures SchedValid(out.s)
    ensures forall t :: t in out.fired ==> t < l.f.nextToken
    ensures forall sid :: sid in out.s.waiting ==> out.s.waiting[sid] < l.f.nextToken
  {
    var asked := RequestAll(EnqueueAll(l.net.s, l.f.posted), l.f.requests);
    Ticked(l, asked);
    FillOut(l.net.s, l.f.posted, l.f.requests, k);
    TurnsValid(asked.s, k);
    forall t: Token | t >= l.f.nextToken ensures t !in out.fired && t !in out.s.waiting.Values {
      TurnsNeverFire(asked.s, k, t);
    }
    assert forall sid :: sid in out.s.waiting ==> out.s.waiting[sid] in out.s.waiting.Values;
  }

  lemma FillKeepsLocal(l: Local, l': Local, op: LocalOp)
    requires LInv(l) && Permitted(l, op) && op.FillAndSend? && l' == Do(l, op)
    ensures LInv(l')
  {
    var out := Fill(l.net.s, l.f.posted, l.f.requests, op.n);
    FillRuns(l, op.n);
    FillTokens(l, op.n, out);
    if l.f.closing.Some? {
      var Pending(sid, t) := l.f.closing.value;
      FillSettles(l, op.n, sid, t, out);
    }
  }

  lemma DoKeeps(l: Local, l': Local, op: LocalOp)
    requires LInv(l) && Permitted(l, op) && l' == Do(l, op)
    ensures LInv(l')
  {
    match op
    case OpenStream(_, _) => OpenKeepsLocal(l, l', op);
    case PeerOpened(_, _, _) => JoinKeepsLocal(l, l', op);
    case SendRaw(_, _) => SendKeepsLocal(l, l', op);
    case DropStream(_) => DropKeepsLocal(l, l', op);
    case BeginClose => BeginKeepsLocal(l, l', op);
    case FillAndSend(_) => FillKeepsLocal(l, l', op);
    case FinishClose => FinishKeepsLocal(l, l', op);
    case CloseApi(_) => ApiKeepsLocal(l, l', op);
  }

  /** Whatever the channels allow is legal; in particular a close finds nothing queued. */
  lemma CanDoPermitted(l: Local, op: LocalOp)
    requires LInv(l) && CanStep(l.f, op)
    ensures Permitted(l, op)
  {
    match op
    case OpenStream(prio, promises) => E.Single(l.net, Open(l.f.nextSid, prio, promises, Us));
    case PeerOpened(sid, prio, promises) => E.Single(l.net, Open(sid, prio, promises, Peer));
    case FillAndSend(n) => FillRuns(l, n);
    case FinishClose =>
      NothingLeft(l);
      E.Single(l.net, Close(l.f.closing.value.sid));
    case _ =>
  }

  /** When a close is about to be sent, nothing of the stream is queued or on its way to the queues. */
  lemma NothingLeft(l: Local)
    requires LInv(l) && CanStep(l.f, FinishClose)
    ensures CountAll(l.f.s.queues, l.f.closing.value.sid) == 0 && NonePosted(l, l.f.closing.value.sid)
  {
  }

  lemma FinishCloses(l: Local)
    requires LInv(l) && Permitted(l, FinishClose)
    ensures Do(l, FinishClose).net.closed == l.net.closed + {l.f.closing.value.sid}
  {
    E.Single(l.net, Close(l.f.closing.value.sid));
  }

  // ----- whole runs -----

  predicate Can(l: Local, ops: seq<LocalOp>)
    decreases |ops|
  {
    ops == [] || (Permitted(l, ops[0]) && Can(Do(l, ops[0]), ops[1..]))
  }

  function RunLocal(l: Local, ops: seq<LocalOp>): Local
    requires Can(l, ops)
    decreases |ops|
  {
    if ops == [] then l else RunLocal(Do(l, ops[0]), ops[1..])
  }

  /** What the run amounts to for the scheduler, the wire and the receiver. */
  function NetRun(l: Local, ops: seq<LocalOp>): seq<NetOp>
    requires Can(l, ops)
    decreases |ops|
  {
    if ops == [] then [] else NetOps(l, ops[0]) + NetRun(Do(l, ops[0]), ops[1..])
  }

  lemma {:induction false} NetRunLegal(l: Local, ops: seq<LocalOp>)
    requires Can(l, ops)
    ensures Legal(l.net, NetRun(l, ops)) && RunNet(l.net, NetRun(l, ops)) == RunLocal(l, ops).net
    decreases |ops|
  {
    if ops != [] {
      var l' := Do(l, ops[0]);
      NetRunLegal(l', ops[1..]);
      E.RunNetAppend(l.net, NetOps(l, ops[0]), NetRun(l', ops[1..]));
    }
  }

  lemma {:induction false} RunKeepsLocal(l: Local, ops: seq<LocalOp>)
    requires LInv(l) && Can(l, ops)
    ensures LInv(RunLocal(l, ops))
    decreases |ops|
  {
    if ops != [] {
      DoKeeps(l, Do(l, ops[0]), ops[0]);
      RunKeepsLocal(Do(l, ops[0]), ops[1..]);
    }
  }

  /** The steps `ops` of a participant lead to `l`. */
  predicate Reached(offset: Sid, ops: seq<LocalOp>, l: Local) {
    Can(Begin(offset), ops) && l == RunLocal(Begin(offset), ops)
  }

  /** The invariant holds in every state a participant can get into. */
  lemma ReachedValid(offset: Sid, ops: seq<LocalOp>, l: Local)
    requires Reached(offset, ops, l)
    ensures LInv(l)
  {
    RunKeepsLocal(Begin(offset), ops);
  }

  lemma {:induction false} RunLocalSnoc(l: Local, ops: seq<LocalOp>, op: LocalOp)
    requires Can(l, ops) && Permitted(RunLocal(l, ops), op)
    ensures Can(l, ops + [op]) && RunLocal(l, ops + [op]) == Do(RunLocal(l, ops), op)
    decreases |ops|
  {
    if ops == [] {
      assert ops + [op] == [op] && [op][1..] == [];
      assert Can(Do(l, op), []) && RunLocal(Do(l, op), []) == Do(l, op);
    } else {
      assert (ops + [op])[1..] == ops[1..] + [op];
      RunLocalSnoc(Do(l, ops[0]), ops[1..], op);
    }
  }

  /**
   * The guards of the managers suffice: in every state a participant can get into, each step its
   * channels allow is a legal one. `CloseStream` is sent only when nothing of the stream is queued.
   */
  lemma GuardsSuffice(offset: Sid, ops: seq<LocalOp>, op: LocalOp, l: Local)
    requires Reached(offset, ops, l) && CanStep(l.f, op)
    ensures Permitted(l, op) && Reached(offset, ops + [op], Do(l, op)) && Do(l, op).f == Step(l.f, op)
  {
    ReachedValid(offset, ops, l);
    CanDoPermitted(l, op);
    RunLocalSnoc(Begin(offset), ops, op);
  }

  /** The next stream id is in use only if the other side has used it. */
  lemma NextIsNew(offset: Sid, ops: seq<LocalOp>, l: Local)
    requires Reached(offset, ops, l)
    ensures l.f.nextSid in l.f.prioOf ==> l.f.nextSid in l.net.joined
  {
    ReachedValid(offset, ops, l);
  }

  /** When `CloseStream` is about to be sent, nothing of the stream is left, and it closes the stream. */
  lemma ReadyToFinish(offset: Sid, ops: seq<LocalOp>, l: Local)
    requires Reached(offset, ops, l) && CanStep(l.f, FinishClose)
    ensures var sid := l.f.closing.value.sid;
      && CountAll(l.f.s.queues, sid) == 0 && NonePosted(l, sid)
      && Permitted(l, FinishClose) && Do(l, FinishClose).net.closed == l.net.closed + {sid}
  {
    ReachedValid(offset, ops, l);
    NothingLeft(l);
    CanDoPermitted(l, FinishClose);
    FinishCloses(l);
  }

  lemma {:induction false} GivenNone(ms: seq<Outgoing>, sid: Sid)
    requires forall i :: 0 <= i < |ms| ==> ms[i].sid != sid
    ensures Given(ms, sid) == []
  {
    if ms != [] { GivenNone(ms[1..], sid); }
  }

  /** No turn of the run starts a message while another one with its id is emitted in part. */
  ghost predicate ClashFreeRun(offset: Sid, ops: seq<LocalOp>)
    requires Can(Begin(offset), ops)
  {
    NetRunLegal(Begin(offset), ops);
    ClashFree(Start(), NetRun(Begin(offset), ops))
  }

  /**
   * Closing loses nothing. Once `CloseStream` for a stream is on the wire, the other side's stream
   * has received exactly the non-empty messages that `send_raw` ever accepted on it, provided that
   * no message clashed with another one on the way.
   */
  lemma GracefulClose(offset: Sid, ops: seq<LocalOp>, sid: Sid, l: Local)
    requires Reached(offset, ops, l)
    requires ClashFreeRun(offset, ops) && sid in l.net.closed
    ensures Obtained(l.net.rx.delivered, sid) == Given(l.accepted, sid)
  {
    NetRunLegal(Begin(offset), ops);
    ReachedValid(offset, ops, l);
    E.ClosedComplete(NetRun(Begin(offset), ops), sid);
    NothingOnTheWay(l, sid);
  }

  /** Nothing accepted on a closed stream is still on its way to the scheduler. */
  lemma NothingOnTheWay(l: Local, sid: Sid)
    requires LInv(l) && sid in l.net.closed
    ensures Given(l.accepted, sid) == Given(l.net.sent, sid)
  {
    GivenNone(Messages(l.f.posted), sid);
    GivenJoin(l.net.sent, Messages(l.f.posted), sid);
  }

  lemma {:induction false} GivenJoin(a: seq<Outgoing>, b: seq<Outgoing>, sid: Sid)
    ensures Given(a + b, sid) == Given(a, sid) + Given(b, sid)
  {
    if a == [] {
      assert a + b == b;
    } else {
      assert (a + b)[1..] == a[1..] + b;
      GivenJoin(a[1..], b, sid);
    }
  }

  // ----- one call of fill_frames with turns enough -----

  lemma {:induction false} RequestsQueueNothing(s: Sched, requests: seq<FlushRequest>)
    ensures RequestAll(s, requests).s.queues == s.queues
    decreases |requests|
  {
    if requests != [] {
      RequestsQueueNothing(RequestFlush(s, requests[0].sid, requests[0].token).s, requests[1..]);
    }
  }

  /** The work that a call of `fill_frames` finds, in fragments. */
  function WorkAhead(f: Fields): nat { S.Work(EnqueueAll(f.s, f.posted).queues) }

  lemma FillDrains(s: Sched, posted: seq<Posted>, requests: seq<FlushRequest>, k: nat, out: Out)
    requires out == Fill(s, posted, requests, k)
    ensures Idle(out.s) <==> k >= S.Work(EnqueueAll(s, posted).queues)
  {
    var queued := EnqueueAll(s, posted);
    FillOut(s, posted, requests, k);
    RequestsQueueNothing(queued, requests);
    S.DrainedExactly(RequestAll(queued, requests).s, k);
  }

  lemma FillForgotten(s: Sched, posted: seq<Posted>, requests: seq<FlushRequest>, k: nat, out: Out)
    requires out == Fill(s, posted, requests, k) && k > 0
    ensures S.Forgotten(out.s) <==> k > S.Work(EnqueueAll(s, posted).queues)
  {
    var queued := EnqueueAll(s, posted);
    FillOut(s, posted, requests, k);
    RequestsQueueNothing(queued, requests);
    S.ForgottenExactly(RequestAll(queued, requests).s, k);
  }

  /** A call forgets the points if and only if a turn is left after all the work. */
  lemma FillForgets(f: Fields, k: nat, f': Fields)
    requires k > 0 && f' == Step(f, FillAndSend(k))
    ensures S.Forgotten(f'.s) <==> k > WorkAhead(f)
  {
    FillForgotten(f.s, f.posted, f.requests, k, Fill(f.s, f.posted, f.requests, k));
  }

  lemma DrainsAt(l: Local, k: nat, f': Fields)
    requires LInv(l) && f' == Step(l.f, FillAndSend(k))
    ensures f'.posted == [] && (Idle(f'.s) <==> k >= WorkAhead(l.f))
  {
    FillDrains(l.f.s, l.f.posted, l.f.requests, k, Fill(l.f.s, l.f.posted, l.f.requests, k));
  }

  lemma FlushFires(l: Local, k: nat, f': Fields)
    requires LInv(l) && l.f.closing.Some? && k >= WorkAhead(l.f) && f' == Step(l.f, FillAndSend(k))
    ensures CanStep(f', FinishClose)
  {
    var Pending(sid, t) := l.f.closing.value;
    var out := Fill(l.f.s, l.f.posted, l.f.requests, k);
    FillSettles(l, k, sid, t, out);
    DrainsAt(l, k, f');
    FillTokens(l, k, out);
    CountAllZero(out.s.queues, sid);
  }

  /** A close always gets through: one call with enough turns and the stream can be closed. */
  lemma CloseCompletes(offset: Sid, ops: seq<LocalOp>, k: nat, l: Local)
    requires Reached(offset, ops, l)
    requires l.f.closing.Some? && k >= WorkAhead(l.f)
    ensures Permitted(l, FillAndSend(k)) && Reached(offset, ops + [FillAndSend(k)], Do(l, FillAndSend(k)))
    ensures CanStep(Do(l, FillAndSend(k)).f, FinishClose)
  {
    ReachedValid(offset, ops, l);
    GuardsSuffice(offset, ops, FillAndSend(k), l);
    FlushFires(l, k, Step(l.f, FillAndSend(k)));
  }

  // ----- when send_mgr leaves its loop -----

  predicate NoFill(ops: seq<LocalOp>) { forall op :: op in ops ==> !op.FillAndSend? }

  /** What is accepted is posted, and without a call of `fill_frames` stays so. */
  lemma StepPosts(l: Local, op: LocalOp, l': Local)
    requires Permitted(l, op) && !op.FillAndSend? && l' == Do(l, op)
    ensures l'.f.s == l.f.s && |l'.f.posted| - |l.f.posted| == |l'.accepted| - |l.accepted| && l.accepted <= l'.accepted
  {
  }

  lemma {:induction false} RunPosts(l: Local, ops: seq<LocalOp>, l': Local)
    requires Can(l, ops) && NoFill(ops) && l' == RunLocal(l, ops)
    ensures l'.f.s == l.f.s && |l'.f.posted| - |l.f.posted| == |l'.accepted| - |l.accepted| && l.accepted <= l'.accepted
    decreases |ops|
  {
    if ops != [] {
      var mid := Do(l, ops[0]);
      StepPosts(l, ops[0], mid);
      RunPosts(mid, ops[1..], l');
    }
  }

  /**
   * What is left behind when `send_mgr` leaves its loop. Its last call has `k` turns; the steps `later`
   * are what the other managers and the users of the streams do before it is gone. Nothing is queued or
   * on its way to the queues if and only if `k` turns were enough for all that was there, and no message
   * has been accepted since.
   */
  lemma ExitMeansDrained(offset: Sid, ops: seq<LocalOp>, k: nat, later: seq<LocalOp>, l: Local, called: Local,
                         l': Local)
    requires Reached(offset, ops, l) && Permitted(l, FillAndSend(k)) && called == Do(l, FillAndSend(k))
    requires NoFill(later) && Can(called, later) && l' == RunLocal(called, later)
    ensures Idle(l'.f.s) && l'.f.posted == [] <==> k >= WorkAhead(l.f) && l'.accepted == l.accepted
  {
    ReachedValid(offset, ops, l);
    DrainsAt(l, k, called.f);
    RunPosts(called, later, l');
  }

  /** Every stream is shut for its user, or let go of. */
  predicate Mute(f: Fields) { forall sid :: sid in f.prioOf ==> sid in f.sendClosed || sid in f.dropped }

  lemma MuteStep(l: Local, op: LocalOp, l': Local)
    requires Permitted(l, op) && l' == Do(l, op) && !op.OpenStream? && !l.f.apiOpen && Mute(l.f)
    ensures !l'.f.apiOpen && Mute(l'.f) && l'.accepted == l.accepted
  {
  }

  lemma {:induction false} MuteFrom(l: Local, ops: seq<LocalOp>, l': Local)
    requires Can(l, ops) && l' == RunLocal(l, ops) && !l.f.apiOpen && Mute(l.f)
    requires forall op :: op in ops ==> !op.OpenStream?
    ensures l'.accepted == l.accepted
    decreases |ops|
  {
    if ops != [] {
      var mid := Do(l, ops[0]);
      MuteStep(l, ops[0], mid);
      MuteFrom(mid, ops[1..], l');
    }
  }

  /** `close_api` shuts every stream, for an error or not; after an error no stream can be opened any more. */
  lemma ApiShuts(l: Local, error: bool, closed: Local)
    requires Permitted(l, CloseApi(error)) && closed == Do(l, CloseApi(error))
    ensures !closed.f.apiOpen && Mute(closed.f) && (forall sid :: sid in l.f.prioOf ==> sid in closed.f.sendClosed)
    ensures error ==> closed.f.failed
    ensures closed.accepted == l.accepted
  {
  }

  /** Once `close_api` was called, nothing is accepted until this side opens another stream. */
  lemma MuteRun(l: Local, error: bool, closed: Local, ops: seq<LocalOp>, l': Local)
    requires Permitted(l, CloseApi(error)) && closed == Do(l, CloseApi(error))
    requires Can(closed, ops) && l' == RunLocal(closed, ops)
    requires forall op :: op in ops ==> !op.OpenStream?
    ensures l'.accepted == l.accepted
  {
    ApiShuts(l, error, closed);
    MuteFrom(closed, ops, l');
  }

  /** A participant that was closed for an error opens no stream any more. */
  predicate FailedMute(f: Fields) { f.failed ==> !f.apiOpen && Mute(f) }

  lemma {:induction false} RunFailedMute(l: Local, ops: seq<LocalOp>)
    requires Can(l, ops) && FailedMute(l.f)
    ensures FailedMute(RunLocal(l, ops).f)
    decreases |ops|
  {
    if ops != [] {
      assert FailedMute(Step(l.f, ops[0]));
      RunFailedMute(Do(l, ops[0]), ops[1..]);
    }
  }

  lemma {:induction false} FailedRun(l: Local, ops: seq<LocalOp>, l': Local)
    requires Can(l, ops) && l' == RunLocal(l, ops) && l.f.failed && FailedMute(l.f)
    ensures l'.accepted == l.accepted
    decreases |ops|
  {
    if ops != [] {
      var mid := Do(l, ops[0]);
      MuteStep(l, ops[0], mid);
      FailedRun(mid, ops[1..], l');
    }
  }

  /** Once it was called for an error, nothing is accepted any more, whatever is tried. */
  lemma FailedMuteRun(l: Local, closed: Local, ops: seq<LocalOp>, l': Local)
    requires Permitted(l, CloseApi(true)) && closed == Do(l, CloseApi(true))
    requires Can(closed, ops) && l' == RunLocal(closed, ops)
    ensures l'.accepted == l.accepted
  {
    ApiShuts(l, true, closed);
    FailedRun(closed, ops, l');
  }

  /** If the participant was closed for an error before that call, the turns alone decide. */
  lemma FailedExit(offset: Sid, ops: seq<LocalOp>, k: nat, later: seq<LocalOp>, l: Local, called: Local, l': Local)
    requires Reached(offset, ops, l) && Permitted(l, FillAndSend(k)) && called == Do(l, FillAndSend(k))
    requires NoFill(later) && Can(called, later) && l' == RunLocal(called, later) && l.f.failed
    ensures Idle(l'.f.s) && l'.f.posted == [] <==> k >= WorkAhead(l.f)
  {
    RunFailedMute(Begin(offset), ops);
    assert FailedMute(called.f) && called.accepted == l.accepted;
    FailedRun(called, later, l');
    ExitMeansDrained(offset, ops, k, later, l, called, l');
  }

  /** `close_api` without an error shuts the streams that are open, but `open_mgr` still opens new ones. */
  lemma OpenAfterClose(offset: Sid, prio: Prio, promises: Promises) returns (l: Local)
    ensures Reached(offset, [CloseApi(false)] + [LocalOp.OpenStream(prio, promises)], l)
    ensures NothingThere(l.f)
    ensures l.f.prioOf == map[offset := prio] && l.f.mids == map[offset := 0] && l.f.sendClosed == {} == l.f.dropped
  {
    var start, op := Begin(offset), LocalOp.OpenStream(prio, promises);
    var closed := Do(start, CloseApi(false));
    assert Reached(offset, [], start);
    GuardsSuffice(offset, [], CloseApi(false), start);
    assert [] + [CloseApi(false)] == [CloseApi(false)];
    GuardsSuffice(offset, [CloseApi(false)], op, closed);
    l := Do(closed, op);
  }

  predicate NothingThere(f: Fields) {
    Idle(f.s) && f.s.points == ZeroPoints() && f.posted == [] && f.requests == []
  }

  lemma NothingFilled(s: Sched, k: nat)
    requires Idle(s) && s.points == ZeroPoints()
    ensures Fill(s, [], [], k) == Out(s, [], [])
  {
    FillOut(s, [], [], k);
    IdleTurns(s, k);
  }

  /** A call that finds nothing. */
  lemma EmptyCall(f: Fields, f': Fields, k: nat)
    requires NothingThere(f) && f' == Step(f, FillAndSend(k))
    ensures WorkAhead(f) == 0 && f' == f
  {
    NothingFilled(f.s, k);
    S.IdleIsEmpty(f.s);
    assert f.fired + Used([]) == f.fired && f.outgoing + [] == f.outgoing;
  }

  /** A message accepted right after such a call. */
  lemma AcceptedLate(called: Local, sid: Sid, buffer: Buffer)
    requires NothingThere(called.f) && CanStep(called.f, SendRaw(sid, buffer)) && sid !in called.f.sendClosed
    ensures Permitted(called, SendRaw(sid, buffer))
    ensures Do(called, SendRaw(sid, buffer)).f.posted ==
      [Posted(called.f.prioOf[sid], Item(sid, OutgoingMessage(buffer, 0, called.f.mids[sid], sid)))]
  {
  }

  /**
   * So a message can be left behind though the last call had turns enough and emitted nothing, which is
   * when `send_mgr` leaves its loop.
   */
  lemma LateMessage(offset: Sid, prio: Prio, promises: Promises, buffer: Buffer, k: nat)
      returns (l: Local, called: Local, l': Local)
    ensures Reached(offset, [CloseApi(false)] + [LocalOp.OpenStream(prio, promises)], l) && WorkAhead(l.f) == 0
    ensures Permitted(l, FillAndSend(k)) && called == Do(l, FillAndSend(k)) && called.f.outgoing == l.f.outgoing
    ensures Permitted(called, SendRaw(offset, buffer)) && l' == Do(called, SendRaw(offset, buffer))
    ensures l'.f.posted == [Posted(prio, Item(offset, OutgoingMessage(buffer, 0, 0, offset)))]
  {
    l := OpenAfterClose(offset, prio, promises);
    GuardsSuffice(offset, [CloseApi(false)] + [LocalOp.OpenStream(prio, promises)], FillAndSend(k), l);
    called := Do(l, FillAndSend(k));
    EmptyCall(l.f, called.f, k);
    AcceptedLate(called, offset, buffer);
    l' := Do(called, SendRaw(offset, buffer));
  }

  /**
   * It leaves the loop only after a call that emitted nothing. Such a call is enough if and only if
   * only empty messages were there, and at most `k`; in particular if fewer than `k` empty ones were.
   */
  lemma SilentExit(offset: Sid, ops: seq<LocalOp>, k: nat, l: Local, f': Fields, queued: Sched)
    requires Reached(offset, ops, l)
    requires f' == Step(l.f, FillAndSend(k)) && queued == EnqueueAll(l.f.s, l.f.posted)
    requires f'.outgoing == l.f.outgoing
    ensures Idle(f'.s) <==> S.Empties(queued.queues) == S.Work(queued.queues) <= k
    ensures S.Empties(queued.queues) < k ==> Idle(f'.s)
  {
    ReachedValid(offset, ops, l);
    SilentAt(l, k, f', queued);
  }

  lemma SilentAt(l: Local, k: nat, f': Fields, queued: Sched)
    requires LInv(l) && f' == Step(l.f, FillAndSend(k)) && queued == EnqueueAll(l.f.s, l.f.posted)
    requires f'.outgoing == l.f.outgoing
    ensures Idle(f'.s) <==> S.Empties(queued.queues) == S.Work(queued.queues) <= k
    ensures S.Empties(queued.queues) < k ==> Idle(f'.s)
  {
    FillOut(l.f.s, l.f.posted, l.f.requests, k);
    RequestsQueueNothing(queued, l.f.requests);
    var asked := RequestAll(queued, l.f.requests);
    Ticked(l, asked);
    assert l.f.outgoing + Turns(asked.s, k).frames == l.f.outgoing;
    SilentCall(asked.s, k, Turns(asked.s, k));
  }

  lemma SilentCall(s: Sched, k: nat, turns: Out)
    requires SchedValid(s) && turns == Turns(s, k) && turns.frames == []
    ensures Idle(turns.s) <==> S.Empties(s.queues) == S.Work(s.queues) <= k
    ensures S.Empties(s.queues) < k ==> Idle(turns.s)
  {
    S.SilentMeansDrained(s, k);
  }
}
