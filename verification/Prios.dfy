/** The weighted priority scheduler of `network/src/prios.rs`. */
module Prios {
  import opened Types
  import opened Message

  const PRIO_MAX: nat := 64

  type Weight = n: nat | n >= 100 witness 100
  type Weights = w: seq<Weight> | |w| == PRIO_MAX witness seq(PRIO_MAX, _ => 100)

  /** What one turn of a priority costs. */
  const PRIOS: Weights :=
    [100, 115, 132, 152, 174, 200, 230, 264, 303, 348, 400, 459, 528, 606, 696, 800]
    + [919, 1056, 1213, 1393, 1600, 1838, 2111, 2425, 2786, 3200, 3676, 4222, 4850, 5572, 6400, 7352]
    + [8445, 9701, 11143, 12800, 14703, 16890, 19401, 22286, 25600, 29407, 33779, 38802, 44572, 51200, 58813, 67559]
    + [77605, 89144, 102400, 117627, 135118, 155209, 178289, 204800, 235253, 270235, 310419, 356578, 409600, 470507,
       540470, 620838]

  /** A oneshot sender, by name. */
  type Token = nat

  datatype Item = Item(sid: Sid, msg: Outgoing)
  type Queue = seq<Item>
  type Queues = q: seq<Queue> | |q| == PRIO_MAX witness seq(PRIO_MAX, _ => [])
  type Points = p: seq<nat> | |p| == PRIO_MAX witness seq(PRIO_MAX, _ => 0)

  /** The scheduler: what turns cost, points spent, queued messages, and the flush each stream waits for. */
  datatype Sched = Sched(prios: Weights, points: Points, queues: Queues, waiting: map<Sid, Token>)

  function ZeroPoints(): (z: Points)
    ensures forall p :: 0 <= p < PRIO_MAX ==> z[p] == 0
  {
    seq(PRIO_MAX, _ => 0)
  }

  function NoQueues(): (qs: Queues)
    ensures forall p :: 0 <= p < PRIO_MAX ==> qs[p] == []
  {
    seq(PRIO_MAX, _ => [])
  }

  function Initial(): Sched { Sched(PRIOS, ZeroPoints(), NoQueues(), map[]) }

  // ----- counting the messages of a stream -----

  function CountIn(q: Queue, sid: Sid): nat {
    if q == [] then 0 else (if q[0].sid == sid then 1 else 0) + CountIn(q[1..], sid)
  }

  /** A measure of single queues, added up. */
  function Total(qs: seq<Queue>, f: Queue -> nat): nat {
    if qs == [] then 0 else f(qs[0]) + Total(qs[1..], f)
  }

  function Of(sid: Sid): Queue -> nat { (q: Queue) => CountIn(q, sid) }

  function CountAll(qs: seq<Queue>, sid: Sid): nat { Total(qs, Of(sid)) }

  /** Changing one queue changes the total by the difference. */
  lemma {:induction false} TotalUpdate(qs: seq<Queue>, p: nat, q: Queue, f: Queue -> nat)
    requires p < |qs|
    ensures Total(qs[p := q], f) == Total(qs, f) - f(qs[p]) + f(q)
  {
    if p == 0 {
      assert qs[p := q][1..] == qs[1..];
    } else {
      assert qs[p := q][1..] == qs[1..][p - 1 := q];
      TotalUpdate(qs[1..], p - 1, q, f);
    }
  }

  lemma {:induction false} TotalZero(qs: seq<Queue>, f: Queue -> nat)
    ensures Total(qs, f) == 0 <==> forall p :: 0 <= p < |qs| ==> f(qs[p]) == 0
  {
    if qs != [] {
      TotalZero(qs[1..], f);
      assert forall p :: 1 <= p < |qs| ==> qs[p] == qs[1..][p - 1];
      assert forall p :: 0 <= p < |qs| - 1 ==> qs[1..][p] == qs[p + 1];
    }
  }

  lemma {:induction false} CountInAppend(q: Queue, r: Queue, sid: Sid)
    ensures CountIn(q + r, sid) == CountIn(q, sid) + CountIn(r, sid)
  {
    if q == [] {
      assert q + r == r;
    } else {
      assert (q + r)[1..] == q[1..] + r;
      CountInAppend(q[1..], r, sid);
    }
  }

  lemma CountAllUpdate(qs: seq<Queue>, p: nat, q: Queue, sid: Sid)
    requires p < |qs|
    ensures CountAll(qs[p := q], sid) == CountAll(qs, sid) - CountIn(qs[p], sid) + CountIn(q, sid)
  {
    TotalUpdate(qs, p, q, Of(sid));
  }

  lemma CountAllZero(qs: seq<Queue>, sid: Sid)
    ensures CountAll(qs, sid) == 0 <==> forall p :: 0 <= p < |qs| ==> CountIn(qs[p], sid) == 0
  {
    TotalZero(qs, Of(sid));
    assert forall p :: 0 <= p < |qs| ==> Of(sid)(qs[p]) == CountIn(qs[p], sid);
  }

  lemma {:induction false} CountInZero(q: Queue, sid: Sid)
    ensures CountIn(q, sid) == 0 <==> forall i :: 0 <= i < |q| ==> q[i].sid != sid
  {
    if q != [] {
      CountInZero(q[1..], sid);
      assert forall i :: 1 <= i < |q| ==> q[i] == q[1..][i - 1];
    }
  }

  // ----- choosing a priority -----

  /** `p` is queued, and no queued priority is cheaper; ties go to the lower number. */
  ghost predicate IsNext(s: Sched, p: nat) {
    && p < PRIO_MAX && s.queues[p] != []
    && forall q :: 0 <= q < PRIO_MAX && s.queues[q] != [] ==>
      s.points[p] < s.points[q] || (s.points[p] == s.points[q] && p <= q)
  }

  predicate Idle(s: Sched) { forall p :: 0 <= p < PRIO_MAX ==> s.queues[p] == [] }

  function BestOf(s: Sched, n: nat): (r: Option<Prio>)
    requires n <= PRIO_MAX
    ensures r == None <==> forall p :: 0 <= p < n ==> s.queues[p] == []
    ensures r.Some? ==> r.value < n && s.queues[r.value] != [] && forall q :: 0 <= q < n && s.queues[q] != [] ==>
      s.points[r.value] < s.points[q] || (s.points[r.value] == s.points[q] && r.value <= q)
  {
    if n == 0 then None
    else
      var best := BestOf(s, n - 1);
      if s.queues[n - 1] != [] && (best == None || s.points[n - 1] < s.points[best.value]) then Some(n - 1)
      else best
  }

  function Next(s: Sched): (r: Option<Prio>)
    ensures r == None <==> Idle(s)
    ensures r.Some? ==> IsNext(s, r.value)
  {
    BestOf(s, PRIO_MAX)
  }

  lemma NextUnique(s: Sched, p: nat)
    requires IsNext(s, p)
    ensures Next(s) == Some(p)
  {
  }

  // ----- the operations of the scheduler -----

  /** A new state, the frames emitted, and the flush senders that fire. */
  datatype Out = Out(s: Sched, frames: seq<Frame>, fired: seq<Token>) {
    /** This, followed by what happens next. */
    function Then(next: Out): Out { Out(next.s, frames + next.frames, fired + next.fired) }
  }

  lemma ThenAssociative(x: Out, y: Out, z: Out)
    ensures x.Then(y).Then(z) == x.Then(y.Then(z))
  {
  }

  function Enqueue(s: Sched, p: Prio, item: Item): Sched {
    s.(queues := s.queues[p := s.queues[p] + [item]])
  }

  function RequestFlush(s: Sched, sid: Sid, token: Token): Out {
    if CountAll(s.queues, sid) > 0 then Out(s.(waiting := s.waiting[sid := token]), [], [])
    else Out(s, [], [token])
  }

  /** A turn of priority `p`, whose queue is not empty. */
  function Serve(s: Sched, p: Prio): Out
    requires s.queues[p] != []
  {
    var item, rest := s.queues[p][0], s.queues[p][1..];
    var points := s.points[p := s.points[p] + s.prios[p]];
    var frames := NextFrames(item.msg);
    if Finishes(item.msg) then
      var queues := s.queues[p := rest];
      if CountAll(queues, item.sid) == 0 && item.sid in s.waiting then
        Out(Sched(s.prios, points, queues, s.waiting - {item.sid}), frames, [s.waiting[item.sid]])
      else
        Out(Sched(s.prios, points, queues, s.waiting), frames, [])
    else
      Out(Sched(s.prios, points, s.queues[p := [Item(item.sid, Advanced(item.msg))] + rest], s.waiting), frames, [])
  }

  /** One round of the loop of `fill_frames`; with nothing queued the points are forgotten. */
  function Turn(s: Sched): Out {
    match Next(s)
    case None => Out(Sched(s.prios, ZeroPoints(), s.queues, s.waiting), [], [])
    case Some(p) => Serve(s, p)
  }

  function Turns(s: Sched, n: nat): Out
    decreases n
  {
    if n == 0 then Out(s, [], []) else Turn(s).Then(Turns(Turn(s).s, n - 1))
  }

  /** A message as it waits in the channel to the scheduler. */
  datatype Posted = Posted(prio: Prio, item: Item)
  datatype FlushRequest = FlushRequest(sid: Sid, token: Token)

  function EnqueueAll(s: Sched, posted: seq<Posted>): Sched
    decreases |posted|
  {
    if posted == [] then s
    else EnqueueAll(Enqueue(s, posted[0].prio, posted[0].item), posted[1..])
  }

  function RequestAll(s: Sched, requests: seq<FlushRequest>): Out
    decreases |requests|
  {
    if requests == [] then Out(s, [], [])
    else
      var first := RequestFlush(s, requests[0].sid, requests[0].token);
      first.Then(RequestAll(first.s, requests[1..]))
  }

  /** `fill_frames`: messages first, flush requests after them, then at most `n` turns. */
  function Fill(s: Sched, posted: seq<Posted>, requests: seq<FlushRequest>, n: nat): Out {
    var ticked := RequestAll(EnqueueAll(s, posted), requests);
    ticked.Then(Turns(ticked.s, n))
  }

  /** Turns without work change nothing more, so leaving the loop early is harmless. */
  lemma {:induction false} IdleTurns(s: Sched, n: nat)
    requires Idle(s) && s.points == ZeroPoints()
    ensures Turns(s, n) == Out(s, [], [])
  {
    if n > 0 { IdleTurns(Turn(s).s, n - 1); }
  }

  /** What is reached from `before` in `k` turns. */
  function Reached(before: Out, k: nat): Out { before.Then(Turns(before.s, k)) }

  lemma ReachedFrom(before: Out, k: nat, j: nat, now: Out)
    requires k == j + 1 && now == before.Then(Turn(before.s))
    ensures Reached(before, k) == Reached(now, j)
    ensures Idle(before.s) ==> Reached(before, k) == now
  {
    var first := Turn(before.s);
    ThenAssociative(before, first, Turns(first.s, j));
    if Idle(before.s) { IdleTurns(first.s, j); }
  }

  lemma ReachedNow(now: Out)
    ensures Reached(now, 0) == now
  {
  }

  // ----- what every operation keeps -----

  /** A message is partially sent only at the front of its queue. */
  ghost predicate QueueValid(q: Queue) {
    && (forall i :: 0 <= i < |q| ==> q[i].sid == q[i].msg.sid)
    && (forall i :: 1 <= i < |q| ==> q[i].msg.cursor == 0)
    && (q != [] && q[0].msg.cursor > 0 ==> q[0].msg.cursor < |q[0].msg.buffer|)
  }

  ghost predicate SchedValid(s: Sched) {
    && (forall p :: 0 <= p < PRIO_MAX ==> QueueValid(s.queues[p]))
    && (forall sid :: sid in s.waiting ==> CountAll(s.queues, sid) > 0)
  }

  lemma EnqueueValid(s: Sched, p: Prio, item: Item)
    requires SchedValid(s) && item.msg.cursor == 0 && item.sid == item.msg.sid
    ensures SchedValid(Enqueue(s, p, item))
  {
    forall sid | sid in s.waiting ensures CountAll(Enqueue(s, p, item).queues, sid) > 0 {
      CountAllUpdate(s.queues, p, s.queues[p] + [item], sid);
      CountInAppend(s.queues[p], [item], sid);
    }
  }

  lemma ServeCounts(s: Sched, p: Prio, sid: Sid)
    requires s.queues[p] != []
    ensures CountAll(Serve(s, p).s.queues, sid) == CountAll(s.queues, sid)
      - if Finishes(s.queues[p][0].msg) && s.queues[p][0].sid == sid then 1 else 0
  {
    var q := s.queues[p];
    CountAllUpdate(s.queues, p, q[1..], sid);
    CountAllUpdate(s.queues, p, [Item(q[0].sid, Advanced(q[0].msg))] + q[1..], sid);
  }

  /** A turn that uses its message up. */
  lemma ServeFinished(s: Sched, p: Prio, queues: Queues)
    requires s.queues[p] != [] && Finishes(s.queues[p][0].msg) && queues == s.queues[p := s.queues[p][1..]]
    ensures var sid, out := s.queues[p][0].sid, Serve(s, p);
      && out.s.prios == s.prios && out.s.points == s.points[p := s.points[p] + s.prios[p]] && out.s.queues == queues
      && (CountAll(queues, sid) > 0 ==> out.s.waiting == s.waiting && out.fired == [])
      && (CountAll(queues, sid) == 0 ==>
            && out.s.waiting == s.waiting - {sid}
            && out.fired == if sid in s.waiting then [s.waiting[sid]] else [])
  {
    assert s.queues[p][0].sid !in s.waiting ==> s.waiting - {s.queues[p][0].sid} == s.waiting;
  }

  lemma FinishedCounts(s: Sched, p: Prio, sid: Sid, queues: seq<Queue>)
    requires s.queues[p] != [] && Finishes(s.queues[p][0].msg) && sid == s.queues[p][0].sid
    requires queues == s.queues[p := s.queues[p][1..]]
    ensures CountAll(s.queues, sid) > 0
    ensures forall t :: CountAll(queues, t) == CountAll(s.queues, t) - if t == sid then 1 else 0
  {
    forall t ensures CountAll(queues, t) == CountAll(s.queues, t) - if t == sid then 1 else 0 {
      ServeCounts(s, p, t);
    }
    ServeCounts(s, p, sid);
  }

  lemma FrontValid(q: Queue)
    requires q != [] && QueueValid(q)
    ensures QueueValid(if Finishes(q[0].msg) then q[1..] else [Item(q[0].sid, Advanced(q[0].msg))] + q[1..])
  {
  }

  /** A flush that still waits after a turn waits for a stream that still has messages. */
  lemma StillWaits(s: Sched, p: Prio, sid: Sid)
    requires SchedValid(s) && s.queues[p] != [] && sid in Serve(s, p).s.waiting
    ensures CountAll(Serve(s, p).s.queues, sid) > 0
  {
    ServeCounts(s, p, sid);
  }

  lemma ServeQueues(s: Sched, p: Prio)
    requires s.queues[p] != []
    ensures var q := s.queues[p];
      Serve(s, p).s.queues ==
        s.queues[p := if Finishes(q[0].msg) then q[1..] else [Item(q[0].sid, Advanced(q[0].msg))] + q[1..]]
  {
  }

  lemma TurnValid(s: Sched)
    requires SchedValid(s)
    ensures SchedValid(Turn(s).s)
  {
    if Next(s).Some? {
      var p := Next(s).value;
      FrontValid(s.queues[p]);
      ServeQueues(s, p);
      forall sid | sid in Turn(s).s.waiting ensures CountAll(Turn(s).s.queues, sid) > 0 { StillWaits(s, p, sid); }
    }
  }

  // ----- the manager -----

  datatype PidSidInfo = PidSidInfo(len: nat, emptyNotify: Option<Token>)

  function Waiting(owned: map<Sid, PidSidInfo>): map<Sid, Token> {
    map sid | sid in owned && owned[sid].emptyNotify.Some? :: owned[sid].emptyNotify.value
  }

  /** The counters list exactly the streams with queued messages, each with their number. */
  ghost predicate Counted(owned: map<Sid, PidSidInfo>, qs: seq<Queue>) {
    && (forall sid: Sid :: sid in owned <==> CountAll(qs, sid) > 0)
    && (forall sid :: sid in owned ==> owned[sid].len == CountAll(qs, sid))
  }

  lemma {:induction false} RequestsEmitNothing(s: Sched, requests: seq<FlushRequest>)
    ensures RequestAll(s, requests).frames == []
    decreases |requests|
  {
    if requests != [] {
      RequestsEmitNothing(RequestFlush(s, requests[0].sid, requests[0].token).s, requests[1..]);
    }
  }

  class PrioManager {
    const prios: Weights
    const points: array<nat>
    const messages: array<Queue>
    var messagesRx: seq<Posted>
    var sidFlushedRx: seq<FlushRequest>
    var sidOwned: map<Sid, PidSidInfo>
    var queued: set<Prio>
    /** The flush senders used so far, in order. */
    var fired: seq<Token>

    /** Bookkeeping: `queued` and `sid_owned` agree with the queues. */
    ghost predicate Valid()
      reads this`queued, this`sidOwned, points, messages
    {
      && points.Length == PRIO_MAX && messages.Length == PRIO_MAX && points as object != messages
      && (forall p: Prio :: p in queued <==> messages[p] != [])
      && Counted(sidOwned, messages[..])
    }

    /** The state together with what has been emitted so far. */
    ghost function Now(frames: seq<Frame>): Out
      requires Valid()
      reads this`queued, this`sidOwned, this`fired, points, messages
    {
      Out(State(), frames, fired)
    }

    ghost function State(): Sched
      requires Valid()
      reads this`queued, this`sidOwned, points, messages
    {
      Sched(prios, points[..], messages[..], Waiting(sidOwned))
    }

    constructor ()
      ensures Valid() && State() == Initial()
      ensures messagesRx == [] && sidFlushedRx == [] && fired == []
      ensures fresh(points) && fresh(messages)
    {
      prios := PRIOS;
      points := new nat[PRIO_MAX](_ => 0);
      messages := new Queue[PRIO_MAX](_ => []);
      messagesRx, sidFlushedRx, fired := [], [], [];
      sidOwned, queued := map[], {};
      new;
      assert messages[..] == NoQueues();
      forall sid ensures CountAll(messages[..], sid) == 0 { CountAllZero(messages[..], sid); }
      assert points[..] == ZeroPoints();
      assert Waiting(sidOwned) == map[];
    }

    /** The first loop of `tick`, for one message. */
    method Accept(posted: Posted)
      requires Valid()
      modifies this`queued, this`sidOwned, messages
      ensures Valid() && State() == Enqueue(old(State()), posted.prio, posted.item)
    {
      var sid, prio := posted.item.sid, posted.prio;
      ghost var before := messages[..];
      queued := queued + {prio};
      messages[prio] := messages[prio] + [posted.item];
      var entry := if sid in sidOwned then sidOwned[sid] else PidSidInfo(0, None);
      sidOwned := sidOwned[sid := entry.(len := entry.len + 1)];

      assert messages[..] == before[prio := before[prio] + [posted.item]];
      forall s ensures CountAll(messages[..], s) == CountAll(before, s) + if s == sid then 1 else 0 {
        CountAllUpdate(before, prio, before[prio] + [posted.item], s);
        CountInAppend(before[prio], [posted.item], s);
      }
      assert Waiting(sidOwned) == old(Waiting(sidOwned));
    }

    /** The second loop of `tick`, for one request. */
    method Register(request: FlushRequest)
      requires Valid()
      modifies this`sidOwned, this`fired
      ensures Valid()
      ensures Now([]) == old(Now([])).Then(RequestFlush(old(State()), request.sid, request.token))
    {
      var sid := request.sid;
      if sid in sidOwned {
        sidOwned := sidOwned[sid := sidOwned[sid].(emptyNotify := Some(request.token))];
        assert Waiting(sidOwned) == old(Waiting(sidOwned))[sid := request.token];
      } else {
        fired := fired + [request.token];
      }
    }

    method AcceptAll()
      requires Valid()
      modifies this`messagesRx, this`queued, this`sidOwned, messages
      ensures Valid() && messagesRx == []
      ensures State() == EnqueueAll(old(State()), old(messagesRx))
    {
      ghost var accepted := EnqueueAll(State(), messagesRx);
      while messagesRx != []
        invariant Valid() && EnqueueAll(State(), messagesRx) == accepted
        decreases |messagesRx|
      {
        var posted := messagesRx[0];
        messagesRx := messagesRx[1..];
        Accept(posted);
      }
    }

    method RegisterAll()
      requires Valid()
      modifies this`sidFlushedRx, this`sidOwned, this`fired
      ensures Valid() && sidFlushedRx == []
      ensures Now([]) == old(Now([])).Then(RequestAll(old(State()), old(sidFlushedRx)))
    {
      ghost var target := Now([]).Then(RequestAll(State(), sidFlushedRx));
      while sidFlushedRx != []
        invariant Valid() && Now([]).Then(RequestAll(State(), sidFlushedRx)) == target
        decreases |sidFlushedRx|
      {
        var request := sidFlushedRx[0];
        ghost var first := RequestFlush(State(), request.sid, request.token);
        ThenAssociative(Now([]), first, RequestAll(first.s, sidFlushedRx[1..]));
        sidFlushedRx := sidFlushedRx[1..];
        Register(request);
      }
    }

    /** `tick`: drains both channels, the messages first. */
    method Tick()
      requires Valid()
      modifies this, messages
      ensures Valid() && messagesRx == [] && sidFlushedRx == []
      ensures Now([]) == old(Now([])).Then(RequestAll(EnqueueAll(old(State()), old(messagesRx)), old(sidFlushedRx)))
    {
      AcceptAll();
      RegisterAll();
    }

    /** `calc_next_prio`: whatever order the hash set is visited in, the choice is the same. */
    method CalcNextPrio() returns (lowestId: Option<Prio>)
      requires Valid()
      ensures lowestId == Next(State())
    {
      var rest := queued;
      var lowest := 0;
      lowestId := None;
      while rest != {}
        invariant rest <= queued
        invariant lowestId == None <==> rest == queued
        invariant lowestId.Some? ==> lowestId.value in queued - rest && lowest == points[lowestId.value]
        invariant lowestId.Some? ==> forall n :: n in queued - rest ==>
          lowest < points[n] || (lowest == points[n] && lowestId.value <= n)
        decreases rest
      {
        var n :| n in rest;
        rest := rest - {n};
        var nPoints := points[n];
        if lowestId == None || nPoints < lowest {
          lowest, lowestId := nPoints, Some(n);
        } else if nPoints == lowest && n < lowestId.value {
          lowestId := Some(n);
        }
      }
      if lowestId.Some? {
        NextUnique(State(), lowestId.value);
      }
    }

    /** The counter of `sid` after one of its messages is done; the last one fires the flush. */
    method Release(sid: Sid, ghost before: seq<Queue>)
      requires messages.Length == PRIO_MAX && Counted(sidOwned, before) && CountAll(before, sid) > 0
      requires forall s :: CountAll(messages[..], s) == CountAll(before, s) - if s == sid then 1 else 0
      modifies this`sidOwned, this`fired
      ensures Counted(sidOwned, messages[..])
      ensures CountAll(messages[..], sid) > 0 ==>
        Waiting(sidOwned) == old(Waiting(sidOwned)) && fired == old(fired)
      ensures CountAll(messages[..], sid) == 0 ==>
        && Waiting(sidOwned) == old(Waiting(sidOwned)) - {sid}
        && fired == old(fired) +
                    if sid in old(Waiting(sidOwned)) then [old(Waiting(sidOwned))[sid]] else []
    {
      var cnt := sidOwned[sid];
      cnt := cnt.(len := cnt.len - 1);
      if cnt.len == 0 {
        sidOwned := sidOwned - {sid};
        if cnt.emptyNotify.Some? {
          fired := fired + [cnt.emptyNotify.value];
        }
        assert Waiting(sidOwned) == old(Waiting(sidOwned)) - {sid};
      } else {
        sidOwned := sidOwned[sid := cnt];
        assert Waiting(sidOwned) == old(Waiting(sidOwned));
      }
    }

    /** Charges priority `prio` for a turn and takes its first message out of the queue. */
    method PopFront(prio: Prio) returns (item: Item)
      requires points.Length == PRIO_MAX && messages.Length == PRIO_MAX && points as object != messages
      requires messages[prio] != []
      modifies points, messages
      ensures points[..] == old(points[..])[prio := old(points[prio]) + prios[prio]]
      ensures messages[..] == old(messages[..])[prio := old(messages[prio])[1..]]
      ensures item == old(messages[prio][0])
    {
      points[prio] := points[prio] + prios[prio];
      item := messages[prio][0];
      messages[prio] := messages[prio][1..];
    }

    /** In the middle of a turn of `prio` that began in `s`: its first message is out of the queue. */
    ghost predicate MidTurn(s: Sched, prio: Prio)
      reads this`queued, this`sidOwned, points, messages
    {
      && points.Length == PRIO_MAX && messages.Length == PRIO_MAX && points as object != messages
      && s.queues[prio] != [] && s.prios == prios
      && points[..] == s.points[prio := s.points[prio] + prios[prio]]
      && messages[..] == s.queues[prio := s.queues[prio][1..]]
      && (forall p: Prio :: p in queued <==> s.queues[p] != [])
      && Counted(sidOwned, s.queues) && Waiting(sidOwned) == s.waiting
    }

    /** The end of a turn that used its message up. */
    method Finish(prio: Prio, sid: Sid, ghost s: Sched)
      requires MidTurn(s, prio) && Finishes(s.queues[prio][0].msg) && sid == s.queues[prio][0].sid
      modifies this`sidOwned, this`fired, this`queued
      ensures Valid() && State() == Serve(s, prio).s && fired == old(fired) + Serve(s, prio).fired
    {
      if messages[prio] == [] {
        queued := queued - {prio};
      }
      FinishedCounts(s, prio, sid, messages[..]);
      Release(sid, s.queues);
      ServeFinished(s, prio, messages[..]);
    }

    /** The end of a turn that did not: the message goes back to the front. */
    method PushFront(prio: Prio, item: Item, ghost s: Sched)
      requires MidTurn(s, prio) && !Finishes(s.queues[prio][0].msg)
      requires item == Item(s.queues[prio][0].sid, Advanced(s.queues[prio][0].msg))
      modifies messages
      ensures Valid() && State() == Serve(s, prio).s && Serve(s, prio).fired == []
    {
      messages[prio] := [item] + messages[prio];
      assert messages[..] == s.queues[prio := [item] + s.queues[prio][1..]];
      forall t ensures CountAll(messages[..], t) == CountAll(s.queues, t) {
        ServeCounts(s, prio, t);
      }
    }

    /** One round of the loop of `fill_frames` for the priority it chose. */
    method TakeTurn(prio: Prio, frames: seq<Frame>) returns (frames': seq<Frame>)
      requires Valid() && messages[prio] != []
      modifies this`sidOwned, this`fired, this`queued, points, messages
      ensures Valid()
      ensures Now(frames') == old(Now(frames)).Then(Serve(old(State()), prio))
    {
      ghost var s := State();
      var item := PopFront(prio);
      var msg, finished;
      msg, frames', finished := FillNext(item.msg, frames);
      if finished {
        Finish(prio, item.sid, s);
      } else {
        PushFront(prio, Item(item.sid, msg), s);
      }
    }

    /** The reset of the points when nothing is queued. */
    method ClearPoints()
      requires Valid()
      modifies points
      ensures Valid() && State() == Sched(prios, ZeroPoints(), old(State()).queues, old(State()).waiting)
    {
      forall k | 0 <= k < points.Length { points[k] := 0; }
      assert points[..] == ZeroPoints() && messages[..] == old(messages[..]);
    }

    /** One round of the loop of `fill_frames`. */
    method Round(frames: seq<Frame>) returns (frames': seq<Frame>, empty: bool)
      requires Valid()
      modifies this`sidOwned, this`fired, this`queued, points, messages
      ensures Valid() && (empty <==> Idle(old(State())))
      ensures Now(frames') == old(Now(frames)).Then(Turn(old(State())))
    {
      var prio := CalcNextPrio();
      match prio
      case Some(p) =>
        frames' := TakeTurn(p, frames);
        empty := false;
      case None =>
        ClearPoints();
        frames', empty := frames, true;
    }

    /** The loop of `fill_frames`, left early once nothing is queued. */
    method TakeTurns(n: nat) returns (frames: seq<Frame>)
      requires Valid()
      modifies this`sidOwned, this`fired, this`queued, points, messages
      ensures Valid()
      ensures Now(frames) == Reached(old(Now([])), n)
    {
      ghost var target := Reached(Now([]), n);
      frames := [];
      for i := 0 to n
        invariant Valid() && Reached(Now(frames), n - i) == target
      {
        ghost var before := Now(frames);
        var empty;
        frames, empty := Round(frames);
        ReachedFrom(before, n - i, n - i - 1, Now(frames));
        if empty {
          return;
        }
      }
      ReachedNow(Now(frames));
    }

    method FillFrames(noOfFrames: nat) returns (frames: seq<Frame>)
      requires Valid()
      modifies this, points, messages
      ensures Valid() && messagesRx == [] && sidFlushedRx == []
      ensures Now(frames) == old(Now([])).Then(Fill(old(State()), old(messagesRx), old(sidFlushedRx), noOfFrames))
    {
      ghost var ticked := RequestAll(EnqueueAll(State(), messagesRx), sidFlushedRx);
      RequestsEmitNothing(EnqueueAll(State(), messagesRx), sidFlushedRx);
      ThenAssociative(Now([]), ticked, Turns(ticked.s, noOfFrames));
      Tick();
      frames := TakeTurns(noOfFrames);
    }
  }
}
