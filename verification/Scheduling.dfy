/** Whole runs of the scheduler: fairness, no starvation, draining. */
module Scheduling {
  import opened Types
  import opened Message
  import opened Prios
  import A = Arithmetic

  /** What can happen to a scheduler, in any order. */
  datatype Op = Send(posted: Posted) | Flush(request: FlushRequest) | Take

  function Step(s: Sched, op: Op): Out {
    match op
    case Send(posted) => Out(Enqueue(s, posted.prio, posted.item), [], [])
    case Flush(request) => RequestFlush(s, request.sid, request.token)
    case Take => Turn(s)
  }

  function Run(s: Sched, ops: seq<Op>): Out
    decreases |ops|
  {
    if ops == [] then Out(s, [], []) else Step(s, ops[0]).Then(Run(Step(s, ops[0]).s, ops[1..]))
  }

  function Takes(n: nat): seq<Op> { seq(n, _ => Take) }

  function Sends(posted: seq<Posted>): seq<Op> { seq(|posted|, i requires 0 <= i < |posted| => Send(posted[i])) }

  function Flushes(requests: seq<FlushRequest>): seq<Op> {
    seq(|requests|, i requires 0 <= i < |requests| => Flush(requests[i]))
  }

  lemma {:induction false} RunAppend(s: Sched, a: seq<Op>, b: seq<Op>)
    ensures Run(s, a + b) == Run(s, a).Then(Run(Run(s, a).s, b))
    decreases |a|
  {
    if a == [] {
      assert a + b == b;
    } else {
      var first := Step(s, a[0]);
      var rest := Run(first.s, a[1..]);
      assert (a + b)[1..] == a[1..] + b;
      RunAppend(first.s, a[1..], b);
      ThenAssociative(first, rest, Run(rest.s, b));
    }
  }

  lemma {:induction false} TurnsAreRun(s: Sched, n: nat)
    ensures Turns(s, n) == Run(s, Takes(n))
    decreases n
  {
    if n > 0 {
      assert Takes(n)[1..] == Takes(n - 1);
      TurnsAreRun(Turn(s).s, n - 1);
    }
  }

  lemma {:induction false} SendsAreRun(s: Sched, posted: seq<Posted>)
    ensures Run(s, Sends(posted)) == Out(EnqueueAll(s, posted), [], [])
    decreases |posted|
  {
    if posted != [] {
      assert Sends(posted)[1..] == Sends(posted[1..]);
      SendsAreRun(Enqueue(s, posted[0].prio, posted[0].item), posted[1..]);
    }
  }

  lemma {:induction false} FlushesAreRun(s: Sched, requests: seq<FlushRequest>)
    ensures Run(s, Flushes(requests)) == RequestAll(s, requests)
    decreases |requests|
  {
    if requests != [] {
      assert Flushes(requests)[1..] == Flushes(requests[1..]);
      FlushesAreRun(RequestFlush(s, requests[0].sid, requests[0].token).s, requests[1..]);
    }
  }

  /** A call of `fill_frames` is a run: what is proved about all runs holds between and within its calls. */
  lemma FillIsRun(s: Sched, posted: seq<Posted>, requests: seq<FlushRequest>, n: nat)
    ensures Fill(s, posted, requests, n) == Run(s, Sends(posted) + (Flushes(requests) + Takes(n)))
  {
    SendsAreRun(s, posted);
    var queued := EnqueueAll(s, posted);
    FlushesAreRun(queued, requests);
    TurnsAreRun(RequestAll(queued, requests).s, n);
    RunAppend(queued, Flushes(requests), Takes(n));
    RunAppend(s, Sends(posted), Flushes(requests) + Takes(n));
  }

  // ----- fairness -----

  /** Whether a step is a turn of `p`. */
  predicate TurnOf(s: Sched, op: Op, p: Prio) { op.Take? && Next(s) == Some(p) }

  /** How many turns of the run go to `p`. */
  function Served(s: Sched, ops: seq<Op>, p: Prio): nat
    decreases |ops|
  {
    if ops == [] then 0
    else (if TurnOf(s, ops[0], p) then 1 else 0) + Served(Step(s, ops[0]).s, ops[1..], p)
  }

  /** `p` has something to send whenever a turn is taken. */
  ghost predicate StaysQueued(s: Sched, ops: seq<Op>, p: Prio)
    decreases |ops|
  {
    ops != [] ==> (ops[0].Take? ==> s.queues[p] != []) && StaysQueued(Step(s, ops[0]).s, ops[1..], p)
  }

  lemma StepPoints(s: Sched, op: Op, p: Prio)
    requires op.Take? ==> !Idle(s)
    ensures Step(s, op).s.points[p] == s.points[p] + if TurnOf(s, op, p) then s.prios[p] else 0
  {
  }

  /** The points `p` is charged in a run. */
  function Charged(s: Sched, ops: seq<Op>, p: Prio): nat
    decreases |ops|
  {
    if ops == [] then 0
    else (if TurnOf(s, ops[0], p) then s.prios[p] else 0) + Charged(Step(s, ops[0]).s, ops[1..], p)
  }

  function Times(n: nat, w: Weight): nat { if n == 0 then 0 else w + Times(n - 1, w) }

  lemma {:induction false} TimesIsProduct(n: nat, w: Weight)
    ensures Times(n, w) == n * w
  {
    if n > 0 {
      TimesIsProduct(n - 1, w);
      assert n * w == w + (n - 1) * w;
    }
  }

  lemma SamePrice(s: Sched, op: Op)
    ensures Step(s, op).s.prios == s.prios
  {
  }

  lemma {:induction false} FirstTurn(s: Sched, ops: seq<Op>, p: Prio, took: bool, s': Sched, rest: seq<Op>)
    requires ops != [] && took == TurnOf(s, ops[0], p) && s' == Step(s, ops[0]).s && rest == ops[1..]
    ensures Served(s, ops, p) == (if took then 1 else 0) + Served(s', rest, p)
    ensures Charged(s, ops, p) == (if took then s.prios[p] else 0) + Charged(s', rest, p)
  {
  }

  lemma TimesMore(took: bool, n: nat, w: Weight)
    ensures Times((if took then 1 else 0) + n, w) == (if took then w else 0) + Times(n, w)
  {
  }

  /** Every turn is charged at the price of its priority. */
  lemma {:induction false} ChargedPerTurn(s: Sched, ops: seq<Op>, p: Prio)
    ensures Charged(s, ops, p) == Times(Served(s, ops, p), s.prios[p])
    decreases |ops|
  {
    if ops != [] {
      var took, s', rest := TurnOf(s, ops[0], p), Step(s, ops[0]).s, ops[1..];
      SamePrice(s, ops[0]);
      ChargedPerTurn(s', rest, p);
      FirstTurn(s, ops, p, took, s', rest);
      TimesMore(took, Served(s', rest, p), s.prios[p]);
    }
  }

  /** As long as something stays queued the points are never reset: each turn is paid for in full. */
  lemma {:induction false} PointsPaid(s: Sched, ops: seq<Op>, p: Prio, q: Prio)
    requires StaysQueued(s, ops, q)
    ensures Run(s, ops).s.points[p] == s.points[p] + Charged(s, ops, p)
    decreases |ops|
  {
    if ops != [] {
      StepPoints(s, ops[0], p);
      PointsPaid(Step(s, ops[0]).s, ops[1..], p, q);
    }
  }

  /** A priority is chosen only while its points are not above those of another queued one. */
  lemma CloseStep(s: Sched, op: Op, p: Prio, q: Prio, s': Sched)
    requires p != q && (op.Take? ==> s.queues[p] != [] && s.queues[q] != []) && s' == Step(s, op).s
    ensures s'.prios == s.prios && s.points[q] <= s'.points[q]
    ensures s'.points[p] <= s.points[p] || s'.points[p] <= s'.points[q] + s.prios[p]
  {
    StepPoints(s, op, p);
    StepPoints(s, op, q);
  }

  lemma {:induction false} PointsClose(s: Sched, ops: seq<Op>, p: Prio, q: Prio)
    requires p != q && StaysQueued(s, ops, p) && StaysQueued(s, ops, q)
    ensures var s' := Run(s, ops).s;
      s.points[q] <= s'.points[q]
      && (s'.points[p] <= s.points[p] || s'.points[p] <= s'.points[q] + s.prios[p])
    decreases |ops|
  {
    if ops != [] {
      var s', rest := Step(s, ops[0]).s, ops[1..];
      CloseStep(s, ops[0], p, q, s');
      PointsClose(s', rest, p, q);
    }
  }

  /**
   * Weighted fairness over any stretch in which `p` and `q` both stay queued: what `p` was given
   * exceeds what `q` was given by at most one turn of `p`, up to the difference the stretch began with.
   */
  lemma Fairness(s: Sched, ops: seq<Op>, p: Prio, q: Prio)
    requires p != q && StaysQueued(s, ops, p) && StaysQueued(s, ops, q)
    ensures Served(s, ops, p) == 0 ||
      Served(s, ops, p) * s.prios[p] <= Served(s, ops, q) * s.prios[q] + s.prios[p] + s.points[q] - s.points[p]
  {
    PointsPaid(s, ops, p, p);
    PointsPaid(s, ops, q, q);
    PointsClose(s, ops, p, q);
    ChargedPerTurn(s, ops, p);
    ChargedPerTurn(s, ops, q);
    TimesIsProduct(Served(s, ops, p), s.prios[p]);
    TimesIsProduct(Served(s, ops, q), s.prios[q]);
    var chargedP, chargedQ := Charged(s, ops, p), Charged(s, ops, q);
    assert chargedP == 0 ==> Served(s, ops, p) == 0;
    assert chargedP == 0 || s.points[p] + chargedP <= s.points[q] + chargedQ + s.prios[p];
  }

  predicate Doubles(p: nat)
    requires p + 5 < PRIO_MAX
  {
    2 * PRIOS[p] - 1 <= PRIOS[p + 5] <= 2 * PRIOS[p] + 1
  }

  lemma DoublesEarly(p: nat)
    requires p < 30
    ensures Doubles(p)
  {
  }

  lemma DoublesLate(p: nat)
    requires 30 <= p < 59
    ensures Doubles(p)
  {
  }

  /** Every fifth priority costs twice as much, to within one point. */
  lemma CostDoubles(p: nat)
    requires p + 5 < PRIO_MAX
    ensures Doubles(p)
  {
    if p < 30 { DoublesEarly(p); } else { DoublesLate(p); }
  }

  /**
   * The documented rule that five priorities further down the throughput is halved: over any
   * stretch that starts with equal points, it is exact up to one percent and two turns.
   */
  lemma ThroughputHalves(s: Sched, ops: seq<Op>, p: Prio)
    requires s.prios == PRIOS
    requires p + 5 < PRIO_MAX && s.points[p] == s.points[p + 5]
    requires StaysQueued(s, ops, p) && StaysQueued(s, ops, p + 5)
    ensures var fast, slow := Served(s, ops, p), Served(s, ops, p + 5);
      && 100 * fast <= 201 * slow + 100
      && 199 * slow <= 100 * fast + 201
  {
    CostDoubles(p);
    HalvesIfDoubled(s, ops, p);
  }

  lemma HalvesIfDoubled(s: Sched, ops: seq<Op>, p: Prio)
    requires p + 5 < PRIO_MAX && s.points[p] == s.points[p + 5]
    requires 2 * s.prios[p] - 1 <= s.prios[p + 5] <= 2 * s.prios[p] + 1
    requires StaysQueued(s, ops, p) && StaysQueued(s, ops, p + 5)
    ensures var fast, slow := Served(s, ops, p), Served(s, ops, p + 5);
      && 100 * fast <= 201 * slow + 100
      && 199 * slow <= 100 * fast + 201
  {
    Fairness(s, ops, p, p + 5);
    Fairness(s, ops, p + 5, p);
    Halving(Served(s, ops, p), Served(s, ops, p + 5), s.prios[p], s.prios[p + 5]);
  }

  /** `v` is twice `w`, to within one. */
  lemma AlmostTwice(n: nat, w: nat, v: nat)
    requires 2 * w - 1 <= v <= 2 * w + 1
    ensures 2 * (n * w) - n <= n * v <= 2 * (n * w) + n
  {
    var d := v - 2 * w;
    assert n * v == n * (2 * w) + n * d && n * (2 * w) == 2 * (n * w);
    if d == 0 {
      assert n * d == 0;
    } else if d == 1 {
      assert n * d == n;
    } else {
      assert n * d == 0 - n;
    }
  }

  lemma Spread(a: int, b: int, c: int, w: nat)
    ensures (a - 2 * b - c) * w == a * w - 2 * (b * w) - c * w
    ensures (2 * b - a - c) * w == 2 * (b * w) - a * w - c * w
  {
  }

  lemma Halving(fast: nat, slow: nat, w: nat, v: nat)
    requires w >= 100 && 2 * w - 1 <= v <= 2 * w + 1
    requires fast == 0 || fast * w <= slow * v + w
    requires slow == 0 || slow * v <= fast * w + v
    ensures 100 * fast <= 201 * slow + 100 && 199 * slow <= 100 * fast + 201
  {
    AlmostTwice(slow, w, v);
    if fast > 0 {
      Spread(fast, slow, 1, w);
      ScaledDown(fast - 2 * slow - 1, w, slow);
    }
    if slow > 0 {
      Spread(fast, slow, 2, w);
      ScaledDown(2 * slow - fast - 2, w, slow + 1);
    }
  }

  lemma ScaledDown(d: int, w: nat, b: nat)
    requires w >= 100 && d * w <= b
    ensures 100 * d <= b
  {
  }

  // ----- no starvation -----

  /** How many turns `p` can take before its points pass those of `q`. */
  function Lead(prios: Weights, points: Points, q: Prio, p: nat): nat
    requires p < PRIO_MAX
  {
    if points[p] <= points[q] then (points[q] - points[p]) / prios[p] + 1 else 0
  }

  function LeadSum(prios: Weights, points: Points, q: Prio, n: nat): nat
    requires n <= PRIO_MAX
  {
    if n == 0 then 0 else LeadSum(prios, points, q, n - 1) + Lead(prios, points, q, n - 1)
  }

  /** A bound on the turns until `q` is served, computed from the points alone. */
  function WaitBound(s: Sched, q: Prio): nat { LeadSum(s.prios, s.points, q, PRIO_MAX) }

  function TakeCount(ops: seq<Op>): nat {
    if ops == [] then 0 else (if ops[0].Take? then 1 else 0) + TakeCount(ops[1..])
  }

  lemma DivStep(d: nat, w: nat)
    requires w > 0
    ensures d >= w ==> (d - w) / w == d / w - 1
    ensures d < w ==> d / w == 0
  {
    if d >= w {
      var k := d / w;
      assert k * w <= d < (k + 1) * w;
      assert (k - 1) * w == k * w - w && (k + 1) * w == k * w + w;
      A.Quotient(d - w, w, k - 1);
    }
  }

  lemma {:induction false} LeadSumPaid(prios: Weights, points: Points, q: Prio, p: Prio, n: nat)
    requires n <= PRIO_MAX && p != q && points[p] <= points[q]
    ensures var points': Points := points[p := points[p] + prios[p]];
      LeadSum(prios, points', q, n) == LeadSum(prios, points, q, n) - if p < n then 1 else 0
  {
    if n > 0 {
      LeadSumPaid(prios, points, q, p, n - 1);
      if n - 1 == p {
        DivStep(points[q] - points[p], prios[p]);
      }
    }
  }

  lemma {:induction false} LeadSumPositive(prios: Weights, points: Points, q: Prio, n: nat)
    requires q < n <= PRIO_MAX
    ensures LeadSum(prios, points, q, n) > 0
  {
    if n - 1 > q { LeadSumPositive(prios, points, q, n - 1); }
  }

  /**
   * No starvation: once queued, `q` is served before `WaitBound` turns are over, no matter how
   * many messages other priorities receive in the meantime.
   */
  lemma {:induction false} NoStarvation(s: Sched, ops: seq<Op>, q: Prio)
    requires s.queues[q] != []
    requires TakeCount(ops) >= WaitBound(s, q)
    ensures Served(s, ops, q) > 0
    decreases |ops|
  {
    LeadSumPositive(s.prios, s.points, q, PRIO_MAX);
    if ops[0].Take? {
      var p := Next(s).value;
      if p != q {
        LeadSumPaid(s.prios, s.points, q, p, PRIO_MAX);
        NoStarvation(Turn(s).s, ops[1..], q);
      }
    } else {
      NoStarvation(Step(s, ops[0]).s, ops[1..], q);
    }
  }

  // ----- draining -----

  /** Turns that a message still needs; an empty one needs a turn as well. */
  function TurnsFor(m: Outgoing): nat {
    if |m.buffer| == m.cursor then 1 else (|m.buffer| - m.cursor + FRAME_DATA_SIZE - 1) / FRAME_DATA_SIZE
  }

  function WorkIn(q: Queue): nat {
    if q == [] then 0 else TurnsFor(q[0].msg) + WorkIn(q[1..])
  }

  function Work(qs: seq<Queue>): nat { Total(qs, WorkIn) }

  lemma WorkZero(qs: seq<Queue>)
    ensures Work(qs) == 0 <==> forall p :: 0 <= p < |qs| ==> qs[p] == []
  {
    TotalZero(qs, WorkIn);
    assert forall p :: 0 <= p < |qs| ==> (WorkIn(qs[p]) == 0 <==> qs[p] == []);
  }

  lemma TurnWorks(s: Sched)
    requires !Idle(s)
    ensures Work(Turn(s).s.queues) == Work(s.queues) - 1
  {
    var p := Next(s).value;
    var q := s.queues[p];
    ServeQueues(s, p);
    TotalUpdate(s.queues, p, Turn(s).s.queues[p], WorkIn);
    FrontWorks(q, Turn(s).s.queues[p]);
  }

  lemma FrontWorks(q: Queue, q': Queue)
    requires q != []
    requires q' == if Finishes(q[0].msg) then q[1..] else [Item(q[0].sid, Advanced(q[0].msg))] + q[1..]
    ensures WorkIn(q') == WorkIn(q) - 1
  {
    if !Finishes(q[0].msg) { assert q'[1..] == q[1..]; }
  }

  /** The scheduler is drained after exactly as many turns as the queued messages have fragments. */
  lemma {:induction false} DrainedExactly(s: Sched, n: nat)
    ensures Idle(Turns(s, n).s) <==> n >= Work(s.queues)
    decreases n
  {
    WorkZero(s.queues);
    if n > 0 {
      var s', k := Turn(s).s, n - 1;
      OneTurnLess(s, n, s', k);
      DrainedExactly(s', k);
      if !Idle(s) { TurnWorks(s); }
    }
  }

  lemma OneTurnLess(s: Sched, n: nat, s': Sched, k: nat)
    requires n == k + 1 && s' == Turn(s).s
    ensures Turns(s, n).s == Turns(s', k).s && (Idle(s) ==> s'.queues == s.queues)
  {
  }

  // ----- the points of a call -----

  /** All that was spent is forgotten. */
  predicate Forgotten(s: Sched) { forall p: Prio :: s.points[p] == 0 }

  lemma IdleTurn(s: Sched)
    requires Idle(s)
    ensures Idle(Turn(s).s) && Turn(s).s.points == ZeroPoints() && Work(s.queues) == 0
  {
    WorkZero(s.queues);
  }

  lemma BusyTurn(s: Sched, p: Prio, ops: seq<Op>, k: nat)
    requires !Idle(s) && ops == Takes(k + 1)
    ensures Turn(s).s.points[p] + Charged(Turn(s).s, Takes(k), p) == s.points[p] + Charged(s, ops, p)
  {
    assert ops[1..] == Takes(k);
    StepPoints(s, Take, p);
  }

  lemma OneTurnFirst(s: Sched, n: nat, s': Sched, k: nat)
    requires n == k + 1 && s' == Turn(s).s
    ensures Turns(s, n).s == Turns(s', k).s
  {
  }

  /**
   * The points after a call with `n` turns: if there is a turn that finds nothing queued, all points are
   * forgotten; else every turn was paid for.
   */
  lemma {:induction false} PointsAfter(s: Sched, n: nat, p: Prio)
    ensures Turns(s, n).s.points[p] == if n > Work(s.queues) then 0 else s.points[p] + Charged(s, Takes(n), p)
    decreases n
  {
    if n > 0 {
      var s', k := Turn(s).s, n - 1;
      OneTurnFirst(s, n, s', k);
      if Idle(s) {
        IdleTurn(s);
        IdleTurns(s', k);
      } else {
        TurnWorks(s);
        PointsAfter(s', k, p);
        BusyTurn(s, p, Takes(n), k);
      }
    }
  }

  lemma {:induction false} FirstPays(s: Sched, p: Prio, n: nat)
    requires Next(s) == Some(p) && n > 0
    ensures Charged(s, Takes(n), p) >= s.prios[p]
  {
  }

  /** A call forgets the points if and only if it has more turns than there are fragments queued. */
  lemma ForgottenExactly(s: Sched, n: nat)
    requires n > 0
    ensures Forgotten(Turns(s, n).s) <==> n > Work(s.queues)
  {
    forall p: Prio ensures n > Work(s.queues) ==> Turns(s, n).s.points[p] == 0 { PointsAfter(s, n, p); }
    if n <= Work(s.queues) {
      WorkZero(s.queues);
      var p := Next(s).value;
      PointsAfter(s, n, p);
      FirstPays(s, p, n);
    }
  }

  // ----- a call that sends nothing -----

  function EmptyIn(q: Queue): nat {
    if q == [] then 0 else (if q[0].msg.buffer == [] then 1 else 0) + EmptyIn(q[1..])
  }

  /** Number of queued messages without a single byte. */
  function Empties(qs: seq<Queue>): nat { Total(qs, EmptyIn) }

  lemma SilentTurn(s: Sched, s': Sched)
    requires SchedValid(s) && !Idle(s) && Turn(s).frames == [] && s' == Turn(s).s
    ensures SchedValid(s') && Empties(s'.queues) == Empties(s.queues) - 1
  {
    TurnValid(s);
    var p := Next(s).value;
    var m := s.queues[p][0].msg;
    assert QueueValid(s.queues[p]);
    assert ToSend(m) == 0 && m.buffer == [];
    TotalUpdate(s.queues, p, s.queues[p][1..], EmptyIn);
  }

  /** A call with `n` turns emits no frame. */
  ghost predicate Silent(s: Sched, n: nat) { Turns(s, n).frames == [] }

  ghost predicate DrainedBy(s: Sched, n: nat) { Idle(Turns(s, n).s) }

  lemma SilentTurns(s: Sched, n: nat, s': Sched, k: nat)
    requires n == k + 1 && Silent(s, n) && s' == Turn(s).s
    ensures Turn(s).frames == [] && Silent(s', k)
    ensures DrainedBy(s, n) <==> DrainedBy(s', k)
  {
  }

  lemma IdleStays(s: Sched, n: nat)
    requires Idle(s)
    ensures DrainedBy(s, n)
  {
    if n > 0 { IdleTurns(Turn(s).s, n - 1); }
  }

  lemma IdleIsEmpty(s: Sched)
    ensures Idle(s) <==> Work(s.queues) == 0
    ensures Idle(s) ==> Empties(s.queues) == 0
  {
    WorkZero(s.queues);
    if Idle(s) { TotalZero(s.queues, EmptyIn); }
  }

  lemma SilentStep(s: Sched, n: nat, s': Sched, k: nat)
    requires SchedValid(s) && n == k + 1 && Silent(s, n) && !Idle(s) && s' == Turn(s).s
    ensures SchedValid(s') && Silent(s', k)
    ensures DrainedBy(s, n) <==> DrainedBy(s', k)
    ensures Empties(s'.queues) == Empties(s.queues) - 1 && Work(s'.queues) == Work(s.queues) - 1
  {
    SilentTurns(s, n, s', k);
    SilentTurn(s, s');
    TurnWorks(s);
  }

  /**
   * The exit test of `send_mgr`: a call that emits no frame leaves nothing behind if and only if all
   * that was queued were empty messages, and no more of them than turns; and when it leaves something
   * behind it has spent all its turns on empty messages.
   */
  lemma {:induction false} SilentMeansDrained(s: Sched, n: nat)
    requires SchedValid(s) && Silent(s, n)
    ensures DrainedBy(s, n) <==> Empties(s.queues) == Work(s.queues) <= n
    ensures DrainedBy(s, n) || Empties(s.queues) >= n
    decreases n
  {
    IdleIsEmpty(s);
    if Idle(s) {
      IdleStays(s, n);
    } else if n > 0 {
      var s', k := Turn(s).s, n - 1;
      SilentStep(s, n, s', k);
      SilentMeansDrained(s', k);
    }
  }

  /** A single queue that starts with `n` empty messages hides whatever is behind them. */
  lemma {:induction false} SilentNotDrained(s: Sched, p: Prio, n: nat)
    requires |s.queues[p]| > n && forall q :: 0 <= q < PRIO_MAX && q != p ==> s.queues[q] == []
    requires forall i :: 0 <= i < n ==> s.queues[p][i].msg.buffer == []
    ensures Silent(s, n) && !DrainedBy(s, n)
    decreases n
  {
    if n > 0 {
      EmptyTurn(s, p);
      SilentNotDrained(Turn(s).s, p, n - 1);
    }
  }

  lemma EmptyTurn(s: Sched, p: Prio)
    requires s.queues[p] != [] && s.queues[p][0].msg.buffer == []
    requires forall q :: 0 <= q < PRIO_MAX && q != p ==> s.queues[q] == []
    ensures Turn(s).frames == [] && Turn(s).s.queues == s.queues[p := s.queues[p][1..]]
  {
    NextUnique(s, p);
  }
}
