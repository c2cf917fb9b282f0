/** What happens when the messages of two streams clash, in runs that the managers of a participant make. */
module Clashes {
  import opened Types
  import opened Message
  import opened Prios
  import S = Scheduling
  import opened Reassembly
  import opened Delivery
  import opened EndToEnd
  import opened Sending
  import C = Closing
  import G = Genuine

  // ----- the run -----

  /** Two streams of different priorities, and their first messages. */
  datatype Two = Two(x: Sid, y: Sid, p: Prio, q: Prio, large: Buffer, small: Buffer) {
    predicate Apart() { x != y && p < q }
    function Large(): Outgoing { OutgoingMessage(large, 0, 0, x) }
    function Small(): Outgoing { OutgoingMessage(small, 0, 0, y) }
  }

  /** Both messages have the id 0, as `send_raw` counts them per stream. */
  function TwoStreams(c: Two): seq<NetOp> {
    [Open(c.x, c.p, 0, Us)] + [Open(c.y, c.q, 0, Us)] + [Post(c.x, 0, c.large)] + [Post(c.y, 0, c.small)]
  }

  /** Both messages are queued, each alone at its priority, and no turn has been charged yet. */
  ghost predicate BothQueued(n: Net, c: Two) {
    && n.s.queues[c.p] == [Item(c.x, c.Large())] && n.s.queues[c.q] == [Item(c.y, c.Small())]
    && (forall r: Prio :: r != c.p && r != c.q ==> n.s.queues[r] == [])
    && (forall r: Prio :: n.s.points[r] == 0) && n.s.prios == PRIOS
    && n.sent == [c.Large(), c.Small()] && Ready(n.rx, c) && n.rx.messages == map[]
  }

  /** The receiver knows both streams and has received nothing. */
  predicate Ready(rx: Rx, c: Two) {
    && rx.delivered == []
    && c.x in rx.streams && rx.streams[c.x].recvOpen && c.y in rx.streams && rx.streams[c.y].recvOpen
  }

  lemma PostedBoth(c: Two)
    requires c.Apart()
    ensures Legal(Start(), TwoStreams(c)) && BothQueued(RunNet(Start(), TwoStreams(c)), c)
  {
    var steps := [Open(c.x, c.p, 0, Us), Open(c.y, c.q, 0, Us), Post(c.x, 0, c.large), Post(c.y, 0, c.small)];
    OneMore(Start(), [], steps[0]);
    assert [] + [steps[0]] == [steps[0]];
    OneMore(Start(), [steps[0]], steps[1]);
    OneMore(Start(), [steps[0]] + [steps[1]], steps[2]);
    OneMore(Start(), [steps[0]] + [steps[1]] + [steps[2]], steps[3]);
  }

  /** The state after that. */
  function Both(c: Two): Net
    requires c.Apart()
  {
    PostedBoth(c);
    RunNet(Start(), TwoStreams(c))
  }

  // ----- a message is lost -----

  lemma SecondStartsTooEarly(n: Net, c: Two)
    requires c.Apart() && |c.large| > FRAME_DATA_SIZE && c.small != [] && BothQueued(n, c)
    ensures Clash(Apply(n, TakeTurn).s)
  {
    NextUnique(n.s, c.p);
    var s := Turn(n.s).s;
    assert Partial(s, c.p);
    NextUnique(s, c.q);
  }

  lemma {:induction false} ClashFreeSuffix(n: Net, a: seq<NetOp>, b: seq<NetOp>)
    requires Legal(n, a) && Legal(RunNet(n, a), b) && Legal(n, a + b) && ClashFree(n, a + b)
    ensures ClashFree(RunNet(n, a), b)
    decreases |a|
  {
    if a == [] {
      assert a + b == b;
    } else {
      assert (a + b)[1..] == a[1..] + b;
      ClashFreeSuffix(Apply(n, a[0]), a[1..], b);
    }
  }

  /** Two turns into it, there is a clash. */
  lemma TurnsClash(n: Net, c: Two, k: nat)
    requires c.Apart() && |c.large| > FRAME_DATA_SIZE && c.small != [] && BothQueued(n, c) && k >= 2
    ensures Legal(n, TakeTurns(k)) && !ClashFree(n, TakeTurns(k))
  {
    var n' := Apply(n, TakeTurn);
    SecondStartsTooEarly(n, c);
    TurnsDrain(n, k);
    TurnsDrain(n', k - 1);
    assert TakeTurns(k)[0] == TakeTurn && TakeTurns(k)[1..] == TakeTurns(k - 1) && TakeTurns(k - 1)[0] == TakeTurn;
  }

  /**
   * The hypothesis of the delivery theorem is needed: for any two streams of different priorities, a
   * first message of more than one fragment on the one and any first message on the other end up with
   * a message that is never delivered.
   */
  lemma ClashExample(c: Two, k: nat, ops: seq<NetOp>)
    requires c.Apart() && |c.large| > FRAME_DATA_SIZE && c.small != []
    requires k >= 2 && k >= S.Work(Both(c).s.queues) && ops == TwoStreams(c) + TakeTurns(k)
    ensures Legal(Start(), ops) && Idle(RunNet(Start(), ops).s) && !AllDelivered(RunNet(Start(), ops))
  {
    var n := Both(c);
    PostedBoth(c);
    TurnsFinish(Start(), TwoStreams(c), k, n);
    TurnsClash(n, c, k);
    if ClashFree(Start(), ops) { ClashFreeSuffix(Start(), TwoStreams(c), TakeTurns(k)); }
    DeliveryExactly(ops);
  }

  // ----- a message is put together from two -----

  lemma NextPriceEarly(i: nat)
    requires i < 32
    ensures PRIOS[i] <= PRIOS[i + 1]
  {
  }

  lemma NextPriceLate(i: nat)
    requires 32 <= i < 63
    ensures PRIOS[i] <= PRIOS[i + 1]
  {
  }

  lemma {:induction false} PricesGrow(p: nat, q: nat)
    requires p <= q < PRIO_MAX
    ensures PRIOS[p] <= PRIOS[q]
    decreases q
  {
    if p < q {
      PricesGrow(p, q - 1);
      if q - 1 < 32 { NextPriceEarly(q - 1); } else { NextPriceLate(q - 1); }
    }
  }

  /** The first two fragments fill the whole table entry of the second message. */
  predicate Mixable(c: Two) {
    c.Apart() && |c.large| == |c.small| && FRAME_DATA_SIZE < |c.large| <= 2 * FRAME_DATA_SIZE
  }

  /** The first fragment of the first message is out. */
  ghost predicate FirstOut(n: Net, c: Two) {
    && n.s.queues[c.p] == [Item(c.x, Advanced(c.Large()))] && n.s.queues[c.q] == [Item(c.y, c.Small())]
    && (forall r: Prio :: r != c.p && r != c.q ==> n.s.queues[r] == [])
    && n.s.points[c.p] == PRIOS[c.p] && n.s.points[c.q] == 0 && n.s.prios == PRIOS
    && n.sent == [c.Large(), c.Small()] && Ready(n.rx, c) && n.rx.messages == map[0 := Received(Advanced(c.Large()))]
  }

  /** The first fragment of the second message has taken its place in the table. */
  ghost predicate SecondOut(n: Net, c: Two) {
    && n.s.queues[c.p] == [Item(c.x, Advanced(c.Large()))] && n.s.queues[c.q] == [Item(c.y, Advanced(c.Small()))]
    && (forall r: Prio :: r != c.p && r != c.q ==> n.s.queues[r] == [])
    && n.s.points[c.p] == PRIOS[c.p] && n.s.points[c.q] == PRIOS[c.q]
    && n.sent == [c.Large(), c.Small()] && Ready(n.rx, c) && n.rx.messages == map[0 := Received(Advanced(c.Small()))]
  }

  lemma FirstTurn(n: Net, c: Two, n': Net)
    requires Mixable(c) && BothQueued(n, c) && n' == Apply(n, TakeTurn)
    ensures FirstOut(n', c)
  {
    G.TurnReceived(n, n', c.p, c.Large());
    ReceiveFragment(n.rx, c.Large());
  }

  lemma SecondTurn(n: Net, c: Two, n': Net)
    requires Mixable(c) && FirstOut(n, c) && n' == Apply(n, TakeTurn)
    ensures SecondOut(n', c)
  {
    G.TurnReceived(n, n', c.q, c.Small());
    ReceiveFragment(n.rx, c.Small());
  }

  /** The beginning of the second message and the end of the first one. */
  function Mixed(c: Two): seq<u8>
    requires Mixable(c)
  {
    c.small[..FRAME_DATA_SIZE] + c.large[FRAME_DATA_SIZE..]
  }

  lemma ThirdTurn(n: Net, c: Two, n': Net)
    requires Mixable(c) && SecondOut(n, c) && n' == Apply(n, TakeTurn)
    ensures Obtained(n'.rx.delivered, c.y) == [Payload(0, Mixed(c))] && n'.sent == n.sent && G.Strays(n)
  {
    var m := Advanced(c.Large());
    PricesGrow(c.p, c.q);
    G.TurnReceived(n, n', c.p, m);
    NextUnique(n.s, c.p);
    assert NextMessage(n.s) == Some(m);
    var data := Data(0, FRAME_DATA_SIZE, c.large[FRAME_DATA_SIZE..|c.large|]);
    assert NextFrames(m) == [data];
    ReceiveTwo(n.rx, data, data);
    assert c.small[..FRAME_DATA_SIZE] + c.large[FRAME_DATA_SIZE..|c.large|] == Mixed(c);
    assert n'.rx.delivered == [IncomingMessage(Mixed(c), |c.small|, 0, c.y)];
  }

  /**
   * A clash can do worse than lose a message: if both first messages are of the same length, of two
   * fragments each, then after three turns the second stream is handed the beginning of its own message
   * followed by the end of the other stream's.
   */
  lemma MixedMessage(c: Two, ops: seq<NetOp>, n: Net)
    requires Mixable(c) && ops == TwoStreams(c) + TakeTurns(3)
    ensures Legal(Start(), ops) && (n == RunNet(Start(), ops) ==>
      Obtained(n.rx.delivered, c.y) == [Payload(0, Mixed(c))] && Given(n.sent, c.y) == [Payload(0, c.small)])
  {
    var n0 := Both(c);
    PostedBoth(c);
    var n1 := Apply(n0, TakeTurn);
    FirstTurn(n0, c, n1);
    var n2 := Apply(n1, TakeTurn);
    SecondTurn(n1, c, n2);
    var n3 := Apply(n2, TakeTurn);
    ThirdTurn(n2, c, n3);
    ThreeTurns(n0, n1, n2, n3);
    RunNetAppend(Start(), TwoStreams(c), TakeTurns(3));
    GivenBoth(c);
  }

  lemma ThreeTurns(n0: Net, n1: Net, n2: Net, n3: Net)
    requires n1 == Apply(n0, TakeTurn) && n2 == Apply(n1, TakeTurn) && n3 == Apply(n2, TakeTurn)
    ensures Legal(n0, TakeTurns(3)) && RunNet(n0, TakeTurns(3)) == n3
  {
    OneMore(n0, [], TakeTurn);
    assert [] + [TakeTurn] == [TakeTurn];
    OneMore(n0, [TakeTurn], TakeTurn);
    OneMore(n0, [TakeTurn] + [TakeTurn], TakeTurn);
    assert TakeTurns(3) == [TakeTurn] + [TakeTurn] + [TakeTurn];
  }

  lemma GivenBoth(c: Two)
    requires Mixable(c)
    ensures Given([c.Large(), c.Small()], c.y) == [Payload(0, c.small)]
  {
    var ms := [c.Large(), c.Small()];
    assert ms[1..] == [c.Small()] && ms[1..][1..] == [];
    assert Given(ms[1..], c.y) == [Payload(0, c.small)];
  }

  // ----- the managers do make these runs -----

  /** Opening both streams and sending on each, from the first id that the participant hands out. */
  function Steps(c: Two): seq<LocalOp> {
    [LocalOp.OpenStream(c.p, 0)] + [LocalOp.OpenStream(c.q, 0)] + [SendRaw(c.x, c.large)] + [SendRaw(c.y, c.small)]
  }

  function OpenBoth(c: Two): seq<NetOp> { [Open(c.x, c.p, 0, Us)] + [Open(c.y, c.q, 0, Us)] }

  /** The two streams are open. */
  ghost predicate OpenedBoth(l: C.Local, c: Two) {
    && Legal(Start(), OpenBoth(c)) && l.net == RunNet(Start(), OpenBoth(c))
    && l.f.prioOf == map[c.x := c.p, c.y := c.q] && l.f.mids == map[c.x := 0, c.y := 0]
    && l.f.sendClosed == {} == l.f.dropped && l.f.posted == [] && l.f.requests == []
  }

  lemma Opening(c: Two) returns (l: C.Local)
    requires c.Apart() && c.y == c.x + 1
    ensures C.Reached(c.x, [LocalOp.OpenStream(c.p, 0)] + [LocalOp.OpenStream(c.q, 0)], l) && OpenedBoth(l, c)
  {
    var start, a, b := C.Begin(c.x), LocalOp.OpenStream(c.p, 0), LocalOp.OpenStream(c.q, 0);
    assert C.Reached(c.x, [], start) && [] + [a] == [a];
    C.GuardsSuffice(c.x, [], a, start);
    var one := C.Do(start, a);
    OneMore(Start(), [], Open(c.x, c.p, 0, Us));
    assert [] + [Open(c.x, c.p, 0, Us)] == [Open(c.x, c.p, 0, Us)];
    C.GuardsSuffice(c.x, [a], b, one);
    l := C.Do(one, b);
    OneMore(Start(), [Open(c.x, c.p, 0, Us)], Open(c.y, c.q, 0, Us));
    Single(one.net, Open(c.y, c.q, 0, Us));
  }

  function Waiting(c: Two): seq<Posted> { [Posted(c.p, Item(c.x, c.Large())), Posted(c.q, Item(c.y, c.Small()))] }

  lemma SendingBoth(c: Two) returns (l: C.Local)
    requires c.Apart() && c.y == c.x + 1
    ensures C.Reached(c.x, Steps(c), l) && l.f.posted == Waiting(c) && l.f.requests == []
    ensures Legal(Start(), OpenBoth(c)) && l.net == RunNet(Start(), OpenBoth(c))
  {
    var two := Opening(c);
    var ops := [LocalOp.OpenStream(c.p, 0)] + [LocalOp.OpenStream(c.q, 0)];
    C.GuardsSuffice(c.x, ops, SendRaw(c.x, c.large), two);
    var three := C.Do(two, SendRaw(c.x, c.large));
    C.GuardsSuffice(c.x, ops + [SendRaw(c.x, c.large)], SendRaw(c.y, c.small), three);
    l := C.Do(three, SendRaw(c.y, c.small));
  }

  /** What one call of `fill_frames` then does to the net. */
  lemma CallOps(l: C.Local, c: Two, k: nat)
    requires l.f.posted == Waiting(c) && l.f.requests == []
    ensures C.NetOps(l, FillAndSend(k)) == [Post(c.x, 0, c.large)] + [Post(c.y, 0, c.small)] + TakeTurns(k)
  {
    assert C.Posts(l.f.posted) == [Post(c.x, 0, c.large)] + [Post(c.y, 0, c.small)];
    assert C.Asks(l.f.requests) == [];
  }

  /** These steps and one call with `k` turns amount to the run of the two streams. */
  lemma ManagersMake(c: Two, k: nat) returns (l: C.Local)
    requires c.Apart() && c.y == c.x + 1
    ensures C.Reached(c.x, Steps(c) + [FillAndSend(k)], l) && l.f.posted == [] && l.accepted == l.net.sent
    ensures Legal(Start(), TwoStreams(c) + TakeTurns(k)) && l.net == RunNet(Start(), TwoStreams(c) + TakeTurns(k))
  {
    var sent := SendingBoth(c);
    C.GuardsSuffice(c.x, Steps(c), FillAndSend(k), sent);
    l := C.Do(sent, FillAndSend(k));
    CallOps(sent, c, k);
    var call := C.NetOps(sent, FillAndSend(k));
    RunNetAppend(Start(), OpenBoth(c), call);
    assert OpenBoth(c) + call == TwoStreams(c) + TakeTurns(k);
    C.ReachedValid(c.x, Steps(c) + [FillAndSend(k)], l);
    assert l.net.sent + C.Messages([]) == l.net.sent;
  }

  /**
   * So a participant that sends its first messages on two streams of different priorities, the first
   * one longer than a fragment, loses a message, although everything it accepted is sent.
   */
  lemma FirstMessagesLost(c: Two, k: nat) returns (l: C.Local, sid: Sid)
    requires c.Apart() && c.y == c.x + 1 && |c.large| > FRAME_DATA_SIZE && c.small != []
    requires k >= 2 && k >= S.Work(Both(c).s.queues)
    ensures C.Reached(c.x, Steps(c) + [FillAndSend(k)], l) && Idle(l.f.s) && l.f.posted == []
    ensures Obtained(l.net.rx.delivered, sid) != Given(l.accepted, sid)
  {
    l := ManagersMake(c, k);
    ClashExample(c, k, TwoStreams(c) + TakeTurns(k));
    C.ReachedValid(c.x, Steps(c) + [FillAndSend(k)], l);
    sid :| Obtained(l.net.rx.delivered, sid) != Given(l.net.sent, sid);
  }

  /** And the other side's second stream can be handed a message that nobody sent. */
  lemma FirstMessagesMixed(c: Two) returns (l: C.Local)
    requires Mixable(c) && c.y == c.x + 1
    ensures C.Reached(c.x, Steps(c) + [FillAndSend(3)], l)
    ensures Obtained(l.net.rx.delivered, c.y) == [Payload(0, Mixed(c))]
    ensures Given(l.accepted, c.y) == [Payload(0, c.small)]
  {
    l := ManagersMake(c, 3);
    MixedMessage(c, TwoStreams(c) + TakeTurns(3), l.net);
  }
}
