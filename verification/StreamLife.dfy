/** The life of the streams of a participant over whole runs: ids, message numbers, and how they end. */
module StreamLife {
  import opened Types
  import opened Message
  import opened Prios
  import opened Sending
  import C = Closing

  // ----- the ids of streams -----

  /** A stream that this side opened. */
  datatype Opened = Opened(sid: nat, prio: u8, promises: Promises)

  /** The streams named by the `OpenStream` frames, in order. */
  function Openings(fs: seq<Frame>): seq<Opened> {
    if fs == [] then []
    else (if fs[0].OpenStream? then [Opened(fs[0].sid, fs[0].prio, fs[0].promises)] else []) + Openings(fs[1..])
  }

  /** What the steps ask for, numbered from `next` on. */
  function Requested(ops: seq<LocalOp>, next: nat): seq<Opened> {
    if ops == [] then []
    else if ops[0].OpenStream? then [Opened(next, ops[0].prio, ops[0].promises)] + Requested(ops[1..], next + 1)
    else Requested(ops[1..], next)
  }

  lemma JoinedOpenings(a: seq<Opened>, b: seq<Opened>, c: seq<Opened>)
    ensures a + b + c == a + (b + c)
  {
  }

  lemma {:induction false} OpeningsJoin(a: seq<Frame>, b: seq<Frame>)
    ensures Openings(a + b) == Openings(a) + Openings(b)
  {
    if a == [] {
      assert a + b == b;
    } else {
      var first, rest := a[0], a[1..];
      var head := if first.OpenStream? then [Opened(first.sid, first.prio, first.promises)] else [];
      assert (a + b)[0] == first && (a + b)[1..] == rest + b;
      OpeningsJoin(rest, b);
      JoinedOpenings(head, Openings(rest), Openings(b));
    }
  }

  // ----- the requests to close streams -----

  /** The streams named by the `CloseStream` frames, in order. */
  function Closings(fs: seq<Frame>): seq<Sid> {
    if fs == [] then [] else (if fs[0].CloseStream? then [fs[0].sid] else []) + Closings(fs[1..])
  }

  lemma JoinedSids(a: seq<Sid>, b: seq<Sid>, c: seq<Sid>)
    ensures a + b + c == a + (b + c)
  {
  }

  lemma {:induction false} ClosingsJoin(a: seq<Frame>, b: seq<Frame>)
    ensures Closings(a + b) == Closings(a) + Closings(b)
  {
    if a == [] {
      assert a + b == b;
    } else {
      var rest := a[1..];
      assert (a + b)[1..] == rest + b;
      ClosingsJoin(rest, b);
      JoinedSids(if a[0].CloseStream? then [a[0].sid] else [], Closings(rest), Closings(b));
    }
  }

  /** Only headers and data. */
  predicate OnlyMessages(fs: seq<Frame>) { forall f :: f in fs ==> f.DataHeader? || f.Data? }

  lemma {:induction false} OnlyMessagesNameNothing(fs: seq<Frame>)
    requires OnlyMessages(fs)
    ensures Openings(fs) == [] && Closings(fs) == []
  {
    if fs != [] {
      assert fs[0] in fs;
      OnlyMessagesNameNothing(fs[1..]);
    }
  }

  lemma TurnOnlyMessages(s: Sched)
    ensures OnlyMessages(Turn(s).frames)
  {
  }

  lemma {:induction false} TurnsOnlyMessages(s: Sched, n: nat)
    ensures OnlyMessages(Turns(s, n).frames)
    decreases n
  {
    if n > 0 {
      TurnOnlyMessages(s);
      TurnsOnlyMessages(Turn(s).s, n - 1);
    }
  }

  lemma FillNamesNothing(s: Sched, posted: seq<Posted>, requests: seq<FlushRequest>, n: nat, out: Out)
    requires out == Fill(s, posted, requests, n)
    ensures Openings(out.frames) == [] && Closings(out.frames) == []
  {
    C.FillOut(s, posted, requests, n);
    TurnsOnlyMessages(RequestAll(EnqueueAll(s, posted), requests).s, n);
    OnlyMessagesNameNothing(out.frames);
  }

  /** What a step puts on the wire. */
  lemma StepNames(f: Fields, op: LocalOp, f': Fields)
    requires CanStep(f, op) && f' == Step(f, op)
    ensures Openings(f'.outgoing) == Openings(f.outgoing) + Requested([op], f.nextSid)
    ensures f'.nextSid == f.nextSid + |Requested([op], f.nextSid)|
    ensures Closings(f'.outgoing) == Closings(f.outgoing) + if op.FinishClose? then [f.closing.value.sid] else []
  {
    match op {
      case OpenStream(prio, promises) =>
        var frame := Frame.OpenStream(f.nextSid, prio, promises);
        OpeningsJoin(f.outgoing, [frame]);
        ClosingsJoin(f.outgoing, [frame]);
      case FillAndSend(n) =>
        var out := Fill(f.s, f.posted, f.requests, n);
        FillNamesNothing(f.s, f.posted, f.requests, n, out);
        OpeningsJoin(f.outgoing, out.frames);
        ClosingsJoin(f.outgoing, out.frames);
      case FinishClose =>
        var frame := Frame.CloseStream(f.closing.value.sid);
        OpeningsJoin(f.outgoing, [frame]);
        ClosingsJoin(f.outgoing, [frame]);
      case _ =>
    }
  }

  lemma RequestedFirst(op: LocalOp, rest: seq<LocalOp>, ops: seq<LocalOp>, next: nat, next': nat)
    requires ops == [op] + rest && next' == next + |Requested([op], next)|
    ensures Requested(ops, next) == Requested([op], next) + Requested(rest, next')
  {
    assert ops[1..] == rest && [op][1..] == [];
  }

  lemma {:induction false} RunOpens(l: C.Local, ops: seq<LocalOp>, l': C.Local)
    requires C.Can(l, ops) && l' == C.RunLocal(l, ops)
    ensures Openings(l'.f.outgoing) == Openings(l.f.outgoing) + Requested(ops, l.f.nextSid)
    ensures l'.f.nextSid == l.f.nextSid + |Requested(ops, l.f.nextSid)|
    decreases |ops|
  {
    if ops != [] {
      var mid := C.Do(l, ops[0]);
      StepNames(l.f, ops[0], mid.f);
      RunOpens(mid, ops[1..], l');
      RequestedFirst(ops[0], ops[1..], ops, l.f.nextSid, mid.f.nextSid);
      JoinedOpenings(Openings(l.f.outgoing), Requested([ops[0]], l.f.nextSid), Requested(ops[1..], mid.f.nextSid));
    }
  }

  /**
   * The streams that this side has told the other one of: those that were asked for, in order, with
   * their priority and promises, and with consecutive ids from the offset on.
   */
  lemma OpenedInOrder(offset: Sid, ops: seq<LocalOp>, l: C.Local)
    requires C.Reached(offset, ops, l)
    ensures Openings(l.f.outgoing) == Requested(ops, offset)
    ensures l.f.nextSid == offset + |Requested(ops, offset)|
  {
    OpenedFrom(C.Begin(offset), ops, l, offset);
  }

  lemma OpenedFrom(start: C.Local, ops: seq<LocalOp>, l: C.Local, offset: Sid)
    requires C.Can(start, ops) && l == C.RunLocal(start, ops) && start.f.outgoing == [] && start.f.nextSid == offset
    ensures Openings(l.f.outgoing) == Requested(ops, offset)
    ensures l.f.nextSid == offset + |Requested(ops, offset)|
  {
    RunOpens(start, ops, l);
  }

  // ----- the ids of messages -----

  /** The ids of the messages of a stream, in order. */
  function Ids(ms: seq<Outgoing>, sid: Sid): seq<nat> {
    if ms == [] then [] else (if ms[0].sid == sid then [ms[0].mid] else []) + Ids(ms[1..], sid)
  }

  function CountUp(n: nat): seq<nat> { if n == 0 then [] else CountUp(n - 1) + [n - 1] }

  lemma {:induction false} IdsJoin(a: seq<Outgoing>, b: seq<Outgoing>, sid: Sid)
    ensures Ids(a + b, sid) == Ids(a, sid) + Ids(b, sid)
  {
    if a == [] {
      assert a + b == b;
    } else {
      assert (a + b)[1..] == a[1..] + b;
      IdsJoin(a[1..], b, sid);
    }
  }

  /** How many messages the stream has counted. */
  function Counted(f: Fields, sid: Sid): nat { if sid in f.mids then f.mids[sid] else 0 }

  /** The messages of `sid` were given the ids 0, 1, 2 and so on. */
  predicate Numbered(l: C.Local, sid: Sid) { Ids(l.accepted, sid) == CountUp(Counted(l.f, sid)) }

  lemma StepCounts(f: Fields, op: LocalOp, f': Fields, sid: Sid)
    requires CanStep(f, op) && f' == Step(f, op) && f.mids.Keys == f.prioOf.Keys
    ensures CountUp(Counted(f', sid)) == CountUp(Counted(f, sid)) + Ids(C.Taken(f, op), sid)
  {
    assert sid in f.mids <==> sid in f.prioOf;
  }

  lemma StepNumbered(l: C.Local, op: LocalOp, l': C.Local, sid: Sid)
    requires C.StreamsValid(l) && C.Agrees(l) && C.Permitted(l, op) && l' == C.Do(l, op) && Numbered(l, sid)
    ensures Numbered(l', sid)
  {
    IdsJoin(l.accepted, C.Taken(l.f, op), sid);
    StepCounts(l.f, op, l'.f, sid);
  }

  lemma {:induction false} RunNumbered(l: C.Local, ops: seq<LocalOp>, l': C.Local, sid: Sid)
    requires C.LInv(l) && C.Can(l, ops) && l' == C.RunLocal(l, ops) && Numbered(l, sid)
    ensures Numbered(l', sid)
    decreases |ops|
  {
    if ops != [] {
      var mid := C.Do(l, ops[0]);
      C.DoKeeps(l, mid, ops[0]);
      StepNumbered(l, ops[0], mid, sid);
      RunNumbered(mid, ops[1..], l', sid);
    }
  }

  /** The messages that a stream accepts are numbered 0, 1, 2 and so on, and its counter is their number. */
  lemma MessagesNumbered(offset: Sid, ops: seq<LocalOp>, l: C.Local, sid: Sid)
    requires C.Reached(offset, ops, l)
    ensures sid in l.f.mids ==> Ids(l.accepted, sid) == CountUp(l.f.mids[sid])
    ensures sid !in l.f.mids ==> Ids(l.accepted, sid) == []
  {
    RunNumbered(C.Begin(offset), ops, l, sid);
  }

  // ----- how streams are closed -----

  function InHand(f: Fields): seq<Sid> { if f.closing.Some? then [f.closing.value.sid] else [] }

  /** The streams that are closed, being closed, and waiting to be closed. */
  function UnderWay(f: Fields): seq<Sid> { Closings(f.outgoing) + (InHand(f) + f.closeQueue) }

  /**
   * The stream that a step asks to be closed: one that its owner drops, unless it was shut before, or one
   * of the other side that nobody is told of.
   */
  function Asked(f: Fields, op: LocalOp): seq<Sid> {
    match op
    case DropStream(sid) => if sid in f.sendClosed then [] else [sid]
    case PeerOpened(sid, _, _) => if f.apiOpen then [] else [sid]
    case _ => []
  }

  function AllAsked(l: C.Local, ops: seq<LocalOp>): seq<Sid>
    requires C.Can(l, ops)
    decreases |ops|
  {
    if ops == [] then [] else Asked(l.f, ops[0]) + AllAsked(C.Do(l, ops[0]), ops[1..])
  }

  function Finished(f: Fields, op: LocalOp): seq<Sid> { if op.FinishClose? then InHand(f) else [] }

  /** A request joins the end of the queue, and moves to its front. */
  lemma StepQueues(f: Fields, op: LocalOp, f': Fields)
    requires CanStep(f, op) && f' == Step(f, op)
    ensures InHand(f) + f.closeQueue + Asked(f, op) == Finished(f, op) + (InHand(f') + f'.closeQueue)
  {
  }

  lemma StepAsks(f: Fields, op: LocalOp, f': Fields)
    requires CanStep(f, op) && f' == Step(f, op)
    ensures UnderWay(f') == UnderWay(f) + Asked(f, op)
  {
    StepNames(f, op, f');
    StepQueues(f, op, f');
    var closed, before, after := Closings(f.outgoing), InHand(f) + f.closeQueue, InHand(f') + f'.closeQueue;
    JoinedSids(closed, Finished(f, op), after);
    JoinedSids(closed, before, Asked(f, op));
  }

  lemma {:induction false} RunAsks(l: C.Local, ops: seq<LocalOp>, l': C.Local)
    requires C.Can(l, ops) && l' == C.RunLocal(l, ops)
    ensures UnderWay(l'.f) == UnderWay(l.f) + AllAsked(l, ops)
    decreases |ops|
  {
    if ops != [] {
      var mid := C.Do(l, ops[0]);
      StepAsks(l.f, ops[0], mid.f);
      RunAsks(mid, ops[1..], l');
      JoinedSids(UnderWay(l.f), Asked(l.f, ops[0]), AllAsked(mid, ops[1..]));
    }
  }

  /**
   * First come, first served, and nothing is forgotten: the streams that are closed, being closed and
   * waiting are those that were asked to be closed, in the order of the requests.
   */
  lemma ClosedInOrder(offset: Sid, ops: seq<LocalOp>, start: C.Local, l: C.Local)
    requires start == C.Begin(offset) && C.Reached(offset, ops, l)
    ensures Closings(l.f.outgoing) + (InHand(l.f) + l.f.closeQueue) == AllAsked(start, ops)
  {
    RunAsks(start, ops, l);
  }

  // ----- which streams are shut -----

  /** The streams known when `close_api` was called. */
  function ShutByApi(l: C.Local, ops: seq<LocalOp>): set<Sid>
    requires C.Can(l, ops)
    decreases |ops|
  {
    if ops == [] then {}
    else (if ops[0].CloseApi? then l.f.prioOf.Keys else {}) + ShutByApi(C.Do(l, ops[0]), ops[1..])
  }

  /** The streams whose close was begun. */
  function Begun(f: Fields): set<Sid> { set sid | sid in Closings(f.outgoing) + InHand(f) }

  lemma StepShuts(f: Fields, op: LocalOp, f': Fields)
    requires CanStep(f, op) && f' == Step(f, op)
    ensures f'.sendClosed - f.sendClosed <= Begun(f') + if op.CloseApi? then f.prioOf.Keys else {}
    ensures f.sendClosed + (if op.CloseApi? then f.prioOf.Keys else {}) <= f'.sendClosed
    ensures Begun(f) <= f.sendClosed ==> Begun(f) <= Begun(f') <= f'.sendClosed
  {
    StepNames(f, op, f');
  }

  lemma {:induction false} RunShuts(l: C.Local, ops: seq<LocalOp>, l': C.Local)
    requires C.Can(l, ops) && l' == C.RunLocal(l, ops) && Begun(l.f) <= l.f.sendClosed
    ensures Begun(l.f) <= Begun(l'.f) <= l'.f.sendClosed && l.f.sendClosed + ShutByApi(l, ops) <= l'.f.sendClosed
    ensures l'.f.sendClosed <= l.f.sendClosed + ShutByApi(l, ops) + Begun(l'.f)
    decreases |ops|
  {
    if ops != [] {
      var mid := C.Do(l, ops[0]);
      StepShuts(l.f, ops[0], mid.f);
      RunShuts(mid, ops[1..], l');
    }
  }

  /**
   * A stream takes messages exactly until its close is begun or `close_api` is called; so one that is
   * opened after that can be used.
   */
  lemma ShutExactly(offset: Sid, ops: seq<LocalOp>, start: C.Local, l: C.Local)
    requires start == C.Begin(offset) && C.Reached(offset, ops, l)
    ensures l.f.sendClosed == ShutByApi(start, ops) + Begun(l.f)
  {
    RunShuts(start, ops, l);
  }

  // ----- what becomes of a dropped stream -----

  /** It is shut, or waits to be closed. */
  predicate Looked(f: Fields) { forall sid :: sid in f.dropped ==> sid in f.sendClosed || sid in f.closeQueue }

  lemma StepLooked(f: Fields, op: LocalOp, f': Fields)
    requires CanStep(f, op) && f' == Step(f, op) && Looked(f)
    ensures Looked(f')
  {
    if op.BeginClose? { assert f.closeQueue == [f.closeQueue[0]] + f'.closeQueue; }
  }

  lemma {:induction false} RunLooked(l: C.Local, ops: seq<LocalOp>, l': C.Local)
    requires C.Can(l, ops) && l' == C.RunLocal(l, ops) && Looked(l.f)
    ensures Looked(l'.f)
    decreases |ops|
  {
    if ops != [] {
      var mid := C.Do(l, ops[0]);
      StepLooked(l.f, ops[0], mid.f);
      RunLooked(mid, ops[1..], l');
    }
  }

  /** In every run, a dropped stream is shut or waits to be closed. */
  lemma DroppedIsShut(offset: Sid, ops: seq<LocalOp>, l: C.Local, sid: Sid)
    requires C.Reached(offset, ops, l) && sid in l.f.dropped
    ensures sid in l.f.sendClosed || sid in l.f.closeQueue
  {
    RunLooked(C.Begin(offset), ops, l);
  }

  /** All dropped streams have been asked to be closed, and only these were shut. */
  ghost predicate AllUnderWay(f: Fields) {
    && f.apiOpen && (forall sid :: sid in f.dropped <==> sid in UnderWay(f))
    && (forall sid :: sid in f.sendClosed ==> sid in UnderWay(f))
  }

  lemma StepUnderWay(f: Fields, op: LocalOp, f': Fields)
    requires CanStep(f, op) && f' == Step(f, op) && AllUnderWay(f) && !op.CloseApi?
    ensures AllUnderWay(f')
  {
    StepAsks(f, op, f');
    if op.BeginClose? { assert f.closeQueue[0] in UnderWay(f); }
  }

  predicate KeepsApi(ops: seq<LocalOp>) { forall op :: op in ops ==> !op.CloseApi? }

  lemma {:induction false} RunUnderWay(l: C.Local, ops: seq<LocalOp>, l': C.Local)
    requires C.Can(l, ops) && l' == C.RunLocal(l, ops) && AllUnderWay(l.f) && KeepsApi(ops)
    ensures AllUnderWay(l'.f)
    decreases |ops|
  {
    if ops != [] {
      var mid := C.Do(l, ops[0]);
      StepUnderWay(l.f, ops[0], mid.f);
      RunUnderWay(mid, ops[1..], l');
    }
  }

  /** As long as `close_api` is not called, the streams dropped are those closed, being closed, or waiting for it. */
  lemma DroppedGetsClosed(offset: Sid, ops: seq<LocalOp>, l: C.Local, sid: Sid)
    requires C.Reached(offset, ops, l) && KeepsApi(ops)
    ensures sid in l.f.dropped <==> sid in Closings(l.f.outgoing) || sid in InHand(l.f) || sid in l.f.closeQueue
  {
    RunUnderWay(C.Begin(offset), ops, l);
  }

  /** A stream that is shut asks for nothing. */
  lemma StepStaysShut(f: Fields, op: LocalOp, f': Fields, sid: Sid)
    requires CanStep(f, op) && f' == Step(f, op) && sid in f.prioOf && sid in f.sendClosed && sid !in UnderWay(f)
    ensures sid in f'.prioOf && sid in f'.sendClosed && sid !in UnderWay(f')
  {
    StepAsks(f, op, f');
  }

  lemma {:induction false} RunStaysShut(l: C.Local, ops: seq<LocalOp>, l': C.Local, sid: Sid)
    requires C.Can(l, ops) && l' == C.RunLocal(l, ops)
    requires sid in l.f.prioOf && sid in l.f.sendClosed && sid !in UnderWay(l.f)
    ensures sid !in UnderWay(l'.f)
    decreases |ops|
  {
    if ops != [] {
      var mid := C.Do(l, ops[0]);
      StepStaysShut(l.f, ops[0], mid.f, sid);
      RunStaysShut(mid, ops[1..], l', sid);
    }
  }

  /**
   * A stream that `close_api` shuts before it was asked to be closed is never closed, though its owner
   * may drop it later: the other side gets no `CloseStream` for it.
   */
  lemma NeverClosed(l: C.Local, error: bool, closed: C.Local, later: seq<LocalOp>, l': C.Local, sid: Sid)
    requires C.Permitted(l, CloseApi(error)) && closed == C.Do(l, CloseApi(error))
    requires C.Can(closed, later) && l' == C.RunLocal(closed, later)
    requires sid in l.f.prioOf && sid !in UnderWay(l.f)
    ensures sid !in Closings(l'.f.outgoing)
  {
    RunStaysShut(closed, later, l', sid);
  }
}
