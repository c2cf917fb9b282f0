/** When the flush notifications of the scheduler fire. */
module Flushing {
  import opened Types
  import opened Message
  import opened Prios
  import opened Scheduling

  /** A message enters the scheduler unsent and under its own stream. */
  predicate OpValid(op: Op) {
    op.Send? ==> op.posted.item.msg.cursor == 0 && op.posted.item.sid == op.posted.item.msg.sid
  }

  lemma StepValid(s: Sched, op: Op, s': Sched)
    requires SchedValid(s) && OpValid(op) && s' == Step(s, op).s
    ensures SchedValid(s')
  {
    match op
    case Send(posted) => EnqueueValid(s, posted.prio, posted.item);
    case Flush(request) =>
    case Take => TurnValid(s);
  }

  /** The only place where the sender `t` is kept is the entry of `sid`. */
  ghost predicate WaitsFor(s: Sched, sid: Sid, t: Token) {
    && sid in s.waiting && s.waiting[sid] == t
    && forall other :: other in s.waiting && other != sid ==> s.waiting[other] != t
  }

  function Fired(fired: seq<Token>, t: Token): nat { multiset(fired)[t] }

  predicate Requests(op: Op, sid: Sid) { op.Flush? && op.request.sid == sid }

  /** A oneshot sender can be used only once. */
  predicate Reuses(op: Op, t: Token) { op.Flush? && op.request.token == t }

  lemma FireTurn(s: Sched, p: Prio, sid: Sid, t: Token, out: Out)
    requires SchedValid(s) && WaitsFor(s, sid, t) && s.queues[p] != [] && out == Serve(s, p)
    ensures CountAll(out.s.queues, sid) > 0 ==> Fired(out.fired, t) == 0 && WaitsFor(out.s, sid, t)
    ensures CountAll(out.s.queues, sid) == 0 ==> Fired(out.fired, t) == 1 && t !in out.s.waiting.Values
  {
    ServeCounts(s, p, sid);
  }

  /** The step that takes the last message of `sid` out of the queues fires its flush, and no other step does. */
  lemma FireStep(s: Sched, op: Op, sid: Sid, t: Token, out: Out)
    requires SchedValid(s) && OpValid(op) && WaitsFor(s, sid, t) && !Requests(op, sid) && !Reuses(op, t)
    requires out == Step(s, op)
    ensures CountAll(out.s.queues, sid) > 0 ==> Fired(out.fired, t) == 0 && WaitsFor(out.s, sid, t)
    ensures CountAll(out.s.queues, sid) == 0 ==>
      op == Take && Fired(out.fired, t) == 1 && t !in out.s.waiting.Values
  {
    match op
    case Send(posted) =>
      CountAllUpdate(s.queues, posted.prio, s.queues[posted.prio] + [posted.item], sid);
      CountInAppend(s.queues[posted.prio], [posted.item], sid);
    case Flush(request) =>
    case Take =>
      var p := Next(s);
      if p.Some? { FireTurn(s, p.value, sid, t, out); }
  }

  /** A second request for a stream with queued messages overwrites the sender that waits. */
  lemma OverwriteStep(s: Sched, op: Op, sid: Sid, t: Token, out: Out)
    requires SchedValid(s) && WaitsFor(s, sid, t) && Requests(op, sid) && !Reuses(op, t) && out == Step(s, op)
    ensures Fired(out.fired, t) == 0 && t !in out.s.waiting.Values && out.s.waiting[sid] == op.request.token
  {
  }

  /** A sender that is kept nowhere cannot fire. */
  lemma NotKept(s: Sched, op: Op, t: Token, out: Out)
    requires t !in s.waiting.Values && !Reuses(op, t) && out == Step(s, op)
    ensures Fired(out.fired, t) == 0 && t !in out.s.waiting.Values
  {
  }

  // ----- what becomes of a request over a run -----

  predicate OpsValid(ops: seq<Op>, t: Token) { forall op :: op in ops ==> OpValid(op) && !Reuses(op, t) }

  /** The stream has nothing queued at some point before it is asked for again. */
  predicate EmptyInTime(s: Sched, ops: seq<Op>, sid: Sid)
    decreases |ops|
  {
    || CountAll(s.queues, sid) == 0
    || (ops != [] && !Requests(ops[0], sid) && EmptyInTime(Step(s, ops[0]).s, ops[1..], sid))
  }

  /** The stream is asked for again while it still has messages queued. */
  predicate AskedAgain(s: Sched, ops: seq<Op>, sid: Sid)
    decreases |ops|
  {
    && CountAll(s.queues, sid) > 0
    && ops != [] && (Requests(ops[0], sid) || AskedAgain(Step(s, ops[0]).s, ops[1..], sid))
  }

  lemma {:induction false} NeverFires(s: Sched, ops: seq<Op>, t: Token)
    requires t !in s.waiting.Values && OpsValid(ops, t)
    ensures Fired(Run(s, ops).fired, t) == 0 && t !in Run(s, ops).s.waiting.Values
    decreases |ops|
  {
    if ops != [] {
      var out := Step(s, ops[0]);
      NotKept(s, ops[0], t, out);
      NeverFires(out.s, ops[1..], t);
    }
  }

  /** A sender that waits fires once, or is overwritten and never fires, or goes on waiting. */
  lemma {:induction false} Fates(s: Sched, ops: seq<Op>, sid: Sid, t: Token)
    requires SchedValid(s) && WaitsFor(s, sid, t) && OpsValid(ops, t)
    ensures Fired(Run(s, ops).fired, t) == if EmptyInTime(s, ops, sid) then 1 else 0
    ensures t in Run(s, ops).s.waiting.Values <==> !EmptyInTime(s, ops, sid) && !AskedAgain(s, ops, sid)
    ensures t in Run(s, ops).s.waiting.Values ==> WaitsFor(Run(s, ops).s, sid, t)
    decreases |ops|
  {
    if ops != [] {
      var out := Step(s, ops[0]);
      if Requests(ops[0], sid) {
        OverwriteStep(s, ops[0], sid, t, out);
        NeverFires(out.s, ops[1..], t);
      } else {
        StepValid(s, ops[0], out.s);
        FireStep(s, ops[0], sid, t, out);
        if CountAll(out.s.queues, sid) > 0 {
          Fates(out.s, ops[1..], sid, t);
        } else {
          NeverFires(out.s, ops[1..], t);
        }
      }
    }
  }

  /**
   * What becomes of a flush request, over any run in which its sender is not used for another one.
   * It fires, and then exactly once, if and only if the stream has nothing queued, at the request or
   * later, before the stream is asked for again; at the request it fires at once. It is lost if and
   * only if the stream is asked for again before that. Otherwise it goes on waiting.
   */
  lemma FlushExactlyOnce(s: Sched, sid: Sid, t: Token, ops: seq<Op>, asked: Out, rest: Out)
    requires SchedValid(s) && t !in s.waiting.Values && OpsValid(ops, t)
    requires asked == RequestFlush(s, sid, t) && rest == Run(asked.s, ops)
    ensures CountAll(s.queues, sid) == 0 <==> asked.fired == [t]
    ensures Fired(asked.Then(rest).fired, t) == if EmptyInTime(asked.s, ops, sid) then 1 else 0
    ensures Fired(asked.Then(rest).fired, t) == 0 && t !in rest.s.waiting.Values <==> AskedAgain(asked.s, ops, sid)
    ensures t in rest.s.waiting.Values ==> WaitsFor(rest.s, sid, t)
  {
    assert Fired(asked.Then(rest).fired, t) == Fired(asked.fired, t) + Fired(rest.fired, t);
    OneOf(asked.s, ops, sid);
    if CountAll(s.queues, sid) == 0 {
      NeverFires(asked.s, ops, t);
    } else {
      assert forall other :: other in s.waiting ==> s.waiting[other] in s.waiting.Values;
      Fates(asked.s, ops, sid, t);
    }
  }

  lemma {:induction false} OneOf(s: Sched, ops: seq<Op>, sid: Sid)
    ensures !(EmptyInTime(s, ops, sid) && AskedAgain(s, ops, sid))
    decreases |ops|
  {
    if ops != [] && CountAll(s.queues, sid) > 0 && !Requests(ops[0], sid) { OneOf(Step(s, ops[0]).s, ops[1..], sid); }
  }
}
