/** The handshake of `network/src/channel.rs` as a protocol between two peers. */
module Channel {
  import opened Types

  /**
   * What a peer brings to the handshake. `numberText` and `versionText` are the complaints a debug
   * build sends before it gives up; the latter quotes the version of the other side.
   */
  datatype Config = Config(
    pid: Pid,
    secret: u128,
    initHandshake: bool,
    magic: Magic,
    version: Version,
    debug: bool,
    numberText: seq<u8>,
    versionText: Version -> seq<u8>)

  datatype Outcome = Configured(pid: Pid, offset: Sid, secret: u128) | Failed

  datatype Phase = Starting | AwaitHandshake | AwaitInit | Done(outcome: Outcome)

  /** The frames sent in a step and the phase it leads to. */
  datatype Reaction = Reaction(sent: seq<Frame>, phase: Phase)

  function Hello(c: Config): Frame { Handshake(c.magic, c.version) }

  function Introduce(c: Config): Frame { Init(c.pid, c.secret) }

  function Complain(c: Config, text: seq<u8>): seq<Frame> {
    if c.debug then [Raw(text), Shutdown] else []
  }

  function Begin(c: Config): Reaction {
    Reaction(if c.initHandshake then [Hello(c)] else [], AwaitHandshake)
  }

  /** The reaction to the next frame, or to the end of the connection. */
  function React(c: Config, phase: Phase, frame: Option<Frame>): Reaction
    requires phase == AwaitHandshake || phase == AwaitInit
  {
    match (phase, frame)
    case (AwaitHandshake, Some(Handshake(magic, version))) =>
      if magic != c.magic then Reaction(Complain(c, c.numberText), Done(Failed))
      else if version != c.version then Reaction(Complain(c, c.versionText(version)), Done(Failed))
      else Reaction([if c.initHandshake then Introduce(c) else Hello(c)], AwaitInit)
    case (AwaitInit, Some(Init(pid, secret))) =>
      if c.initHandshake then Reaction([], Done(Configured(pid, STREAM_ID_OFFSET1, secret)))
      else Reaction([Introduce(c)], Done(Configured(pid, STREAM_ID_OFFSET2, secret)))
    case _ => Reaction([], Done(Failed))
  }

  /**
   * `frame_handler`, with the two results of its receives given up front. It sends and decides what
   * the steps above do one after the other; after a failure it receives nothing more.
   */
  method FrameHandler(c: Config, first: Option<Frame>, second: Option<Frame>)
    returns (sent: seq<Frame>, outcome: Outcome)
    ensures var r1 := React(c, AwaitHandshake, first);
      if r1.phase == AwaitInit then
        var r2 := React(c, AwaitInit, second);
        sent == Begin(c).sent + r1.sent + r2.sent && r2.phase == Done(outcome)
      else
        sent == Begin(c).sent + r1.sent && r1.phase == Done(outcome)
  {
    sent, outcome := [], Failed;
    if c.initHandshake {
      sent := sent + [Hello(c)];
    }
    if first.Some? && first.value.Handshake? {
      var magic, version := first.value.magic, first.value.version;
      if magic != c.magic {
        if c.debug { sent := sent + [Raw(c.numberText), Shutdown]; }
        return;
      } else if version != c.version {
        if c.debug { sent := sent + [Raw(c.versionText(version)), Shutdown]; }
        return;
      } else if c.initHandshake {
        sent := sent + [Introduce(c)];
      } else {
        sent := sent + [Hello(c)];
      }
    } else {
      return;
    }
    if second.Some? && second.value.Init? {
      var offset := STREAM_ID_OFFSET1;
      if !c.initHandshake {
        sent := sent + [Introduce(c)];
        offset := STREAM_ID_OFFSET2;
      }
      outcome := Configured(second.value.pid, offset, second.value.secret);
    }
  }

  // ----- two peers -----

  /** Two peers and the lossless links between them; `toA` carries what B sent. */
  datatype Pair = Pair(a: Config, b: Config, pa: Phase, pb: Phase, toA: seq<Frame>, toB: seq<Frame>)

  datatype Side = A | B

  function Meet(a: Config, b: Config): Pair { Pair(a, b, Starting, Starting, [], []) }

  function Swap(x: Pair): Pair { Pair(x.b, x.a, x.pb, x.pa, x.toB, x.toA) }

  /** A's next step: start, take a frame, or notice that B gave up and nothing of it is left. */
  predicate CanMoveA(x: Pair) {
    match x.pa
    case Starting => true
    case Done(_) => false
    case _ => x.toA != [] || x.pb == Done(Failed)
  }

  function MoveA(x: Pair): Pair
    requires CanMoveA(x)
  {
    if x.pa.Starting? then
      var r := Begin(x.a);
      x.(pa := r.phase, toB := x.toB + r.sent)
    else if x.toA == [] then
      x.(pa := React(x.a, x.pa, None).phase)
    else
      var r := React(x.a, x.pa, Some(x.toA[0]));
      x.(pa := r.phase, toA := x.toA[1..], toB := x.toB + r.sent)
  }

  /** What A sends in that step. */
  function SentNext(x: Pair): seq<Frame>
    requires CanMoveA(x)
  {
    if x.pa.Starting? then Begin(x.a).sent
    else if x.toA == [] then [] else React(x.a, x.pa, Some(x.toA[0])).sent
  }

  predicate CanMove(x: Pair, side: Side) { if side == A then CanMoveA(x) else CanMoveA(Swap(x)) }

  function Move(x: Pair, side: Side): Pair
    requires CanMove(x, side)
  {
    if side == A then MoveA(x) else Swap(MoveA(Swap(x)))
  }

  predicate IsRun(x: Pair, sides: seq<Side>)
    decreases |sides|
  {
    sides == [] || (CanMove(x, sides[0]) && IsRun(Move(x, sides[0]), sides[1..]))
  }

  function After(x: Pair, sides: seq<Side>): Pair
    requires IsRun(x, sides)
    decreases |sides|
  {
    if sides == [] then x else After(Move(x, sides[0]), sides[1..])
  }

  predicate Stuck(x: Pair) { !CanMove(x, A) && !CanMove(x, B) }

  // ----- every run is short -----

  function StepsLeft(p: Phase): nat {
    match p
    case Starting => 3
    case AwaitHandshake => 2
    case AwaitInit => 1
    case Done(_) => 0
  }

  /** No run has more than six steps. */
  lemma {:induction false} Terminates(x: Pair, sides: seq<Side>)
    requires IsRun(x, sides)
    ensures |sides| <= StepsLeft(x.pa) + StepsLeft(x.pb)
    decreases |sides|
  {
    if sides != [] {
      Terminates(Move(x, sides[0]), sides[1..]);
    }
  }

  // ----- matching peers -----

  predicate Matching(a: Config, b: Config) { a.magic == b.magic && a.version == b.version }

  /** What a peer has sent by the time it is in a phase, and how much it has taken. */
  function SentBy(c: Config, p: Phase): seq<Frame> {
    if c.initHandshake then
      match p
      case Starting => []
      case AwaitHandshake => [Hello(c)]
      case _ => [Hello(c), Introduce(c)]
    else
      match p
      case AwaitInit => [Hello(c)]
      case Done(_) => [Hello(c), Introduce(c)]
      case _ => []
  }

  function Taken(p: Phase): nat {
    match p
    case AwaitInit => 1
    case Done(_) => 2
    case _ => 0
  }

  function OffsetOf(c: Config): Sid { if c.initHandshake then STREAM_ID_OFFSET1 else STREAM_ID_OFFSET2 }

  /** What `c` should know after a handshake with `d`. */
  function Knows(c: Config, d: Config): Outcome { Configured(d.pid, OffsetOf(c), d.secret) }

  ghost predicate MatchInv(x: Pair) {
    && Matching(x.a, x.b)
    && (x.pa.Done? ==> x.pa.outcome == Knows(x.a, x.b))
    && (x.pb.Done? ==> x.pb.outcome == Knows(x.b, x.a))
    && Taken(x.pb) <= |SentBy(x.a, x.pa)| && x.toB == SentBy(x.a, x.pa)[Taken(x.pb)..]
    && Taken(x.pa) <= |SentBy(x.b, x.pb)| && x.toA == SentBy(x.b, x.pb)[Taken(x.pa)..]
    && (!x.a.initHandshake && !x.b.initHandshake ==> SentBy(x.a, x.pa) == [] && SentBy(x.b, x.pb) == [])
  }

  /** A step takes a frame, unless it is the first one, and sends what comes next. */
  lemma MatchSends(x: Pair)
    requires MatchInv(x) && CanMoveA(x)
    ensures SentBy(x.a, MoveA(x).pa) == SentBy(x.a, x.pa) + SentNext(x)
    ensures Taken(MoveA(x).pa) == Taken(x.pa) + if x.pa == Starting then 0 else 1
    ensures MoveA(x).pa.Done? ==> MoveA(x).pa.outcome == Knows(x.a, x.b)
    ensures x.pa != Starting ==> x.toA != []
  {
    assert x.pb != Done(Failed);
    if x.pa != Starting { assert x.toA[0] == SentBy(x.b, x.pb)[Taken(x.pa)]; }
  }

  lemma MatchMoveA(x: Pair)
    requires MatchInv(x) && CanMoveA(x)
    ensures MatchInv(MoveA(x))
  {
    var y := MoveA(x);
    MatchSends(x);
    assert y.toB == x.toB + SentNext(x);
    assert y.toA == SentBy(x.b, x.pb)[Taken(y.pa)..];
    assert y.toB == SentBy(x.a, y.pa)[Taken(x.pb)..];
  }

  lemma MatchMove(x: Pair, side: Side)
    requires MatchInv(x) && CanMove(x, side)
    ensures MatchInv(Move(x, side))
  {
    if side == A { MatchMoveA(x); } else { MatchMoveA(Swap(x)); }
  }

  lemma {:induction false} MatchRun(x: Pair, sides: seq<Side>)
    requires MatchInv(x) && IsRun(x, sides)
    ensures MatchInv(After(x, sides))
    decreases |sides|
  {
    if sides != [] {
      MatchMove(x, sides[0]);
      MatchRun(Move(x, sides[0]), sides[1..]);
    }
  }

  // ----- peers of different builds -----

  /** What `c` complains about to a peer that introduced itself as `d`: in debug builds only. */
  function Complaint(c: Config, d: Config): seq<Frame> {
    if !c.debug then []
    else [Raw(if c.magic != d.magic then c.numberText else c.versionText(d.version)), Frame.Shutdown]
  }

  /** What `c` has sent to a peer `d` of another build by the time it is in a phase. */
  function SentToOther(c: Config, d: Config, p: Phase): seq<Frame> {
    (if c.initHandshake && p != Starting then [Hello(c)] else [])
    + if d.initHandshake && p == Done(Failed) then Complaint(c, d) else []
  }

  /** Whoever has taken nothing yet finds all that was sent on the link. */
  ghost predicate MismatchHalf(c: Config, p: Phase, d: Config, other: Phase, link: seq<Frame>) {
    && (p == Starting || p == AwaitHandshake || p == Done(Failed))
    && (p != Done(Failed) ==> link == SentToOther(d, c, other))
  }

  ghost predicate MismatchInv(x: Pair) {
    && !Matching(x.a, x.b)
    && MismatchHalf(x.a, x.pa, x.b, x.pb, x.toA) && MismatchHalf(x.b, x.pb, x.a, x.pa, x.toB)
    && ((x.pa == Done(Failed) || x.pb == Done(Failed)) ==> x.a.initHandshake || x.b.initHandshake)
  }

  /** The first frame it takes is the other side's handshake, if that side starts, or its complaint. */
  lemma MismatchSends(x: Pair)
    requires MismatchInv(x) && CanMoveA(x)
    ensures SentToOther(x.a, x.b, MoveA(x).pa) == SentToOther(x.a, x.b, x.pa) + SentNext(x)
    ensures MoveA(x).pa == if x.pa == Starting then AwaitHandshake else Done(Failed)
  {
    if x.pa != Starting && x.toA != [] {
      assert x.toA[0] == if x.b.initHandshake then Hello(x.b) else Complaint(x.b, x.a)[0];
    }
  }

  lemma MismatchMoveA(x: Pair)
    requires MismatchInv(x) && CanMoveA(x)
    ensures MismatchInv(MoveA(x)) && SentToOther(x.a, x.b, MoveA(x).pa) == SentToOther(x.a, x.b, x.pa) + SentNext(x)
  {
    MismatchSends(x);
    assert MoveA(x).toB == x.toB + SentNext(x);
  }

  lemma MismatchMove(x: Pair, side: Side)
    requires MismatchInv(x) && CanMove(x, side)
    ensures MismatchInv(Move(x, side))
  {
    if side == A { MismatchMoveA(x); } else { MismatchMoveA(Swap(x)); }
  }

  lemma {:induction false} MismatchRun(x: Pair, sides: seq<Side>)
    requires MismatchInv(x) && IsRun(x, sides)
    ensures MismatchInv(After(x, sides))
    decreases |sides|
  {
    if sides != [] {
      MismatchMove(x, sides[0]);
      MismatchRun(Move(x, sides[0]), sides[1..]);
    }
  }

  // ----- the outcome of a handshake -----

  /** Both sides know the other one, and their streams will be numbered from different offsets. */
  predicate Connected(x: Pair) {
    && x.pa == Done(Knows(x.a, x.b)) && x.pb == Done(Knows(x.b, x.a))
    && x.pa.outcome.offset != x.pb.outcome.offset
  }

  /**
   * The outcome of every maximal run, for any two peers: if nobody starts, both wait forever;
   * otherwise they finish together, configured when their builds match and failed when not.
   */
  lemma Outcomes(a: Config, b: Config, sides: seq<Side>)
    requires IsRun(Meet(a, b), sides) && Stuck(After(Meet(a, b), sides))
    ensures var x := After(Meet(a, b), sides);
      if !a.initHandshake && !b.initHandshake then x.pa == AwaitHandshake && x.pb == AwaitHandshake
      else if Matching(a, b) then x.pa == Done(Knows(a, b)) && x.pb == Done(Knows(b, a))
      else x.pa == Done(Failed) && x.pb == Done(Failed)
  {
    var x := After(Meet(a, b), sides);
    SameConfigs(Meet(a, b), sides);
    if Matching(a, b) {
      MatchRun(Meet(a, b), sides);
    } else {
      MismatchRun(Meet(a, b), sides);
    }
  }

  lemma {:induction false} SameConfigs(x: Pair, sides: seq<Side>)
    requires IsRun(x, sides)
    ensures After(x, sides).a == x.a && After(x, sides).b == x.b
    decreases |sides|
  {
    if sides != [] { SameConfigs(Move(x, sides[0]), sides[1..]); }
  }

  /** The handshake connects two peers exactly if their builds match and just one of them starts it. */
  lemma ConnectedExactly(a: Config, b: Config, sides: seq<Side>)
    requires IsRun(Meet(a, b), sides) && Stuck(After(Meet(a, b), sides))
    ensures Connected(After(Meet(a, b), sides)) <==> Matching(a, b) && a.initHandshake != b.initHandshake
  {
    Outcomes(a, b, sides);
    SameConfigs(Meet(a, b), sides);
  }

  // ----- what is sent in a handshake -----

  /** What `side` sends in a step of `move`. */
  function SentNow(x: Pair, move: Side, side: Side): seq<Frame>
    requires CanMove(x, move)
  {
    if move != side then [] else if side == A then SentNext(x) else SentNext(Swap(x))
  }

  /** What a side sends in a run. */
  function SentIn(x: Pair, sides: seq<Side>, side: Side): seq<Frame>
    requires IsRun(x, sides)
    decreases |sides|
  {
    if sides == [] then [] else SentNow(x, sides[0], side) + SentIn(Move(x, sides[0]), sides[1..], side)
  }

  function SentTo(c: Config, d: Config, p: Phase): seq<Frame> {
    if Matching(c, d) then SentBy(c, p) else SentToOther(c, d, p)
  }

  ghost predicate Inv(x: Pair) { MatchInv(x) || MismatchInv(x) }

  lemma MoveSendsA(x: Pair)
    requires Inv(x) && CanMoveA(x)
    ensures Inv(MoveA(x)) && SentTo(x.a, x.b, MoveA(x).pa) == SentTo(x.a, x.b, x.pa) + SentNext(x)
    ensures MoveA(x).a == x.a && MoveA(x).b == x.b && MoveA(x).pb == x.pb
  {
    if MatchInv(x) {
      MatchMoveA(x);
      MatchSends(x);
    } else {
      MismatchMoveA(x);
    }
  }

  function SentOf(x: Pair, side: Side): seq<Frame> {
    if side == A then SentTo(x.a, x.b, x.pa) else SentTo(x.b, x.a, x.pb)
  }

  lemma MoveSends(x: Pair, move: Side, side: Side, y: Pair)
    requires Inv(x) && CanMove(x, move) && y == Move(x, move)
    ensures Inv(y) && SentOf(y, side) == SentOf(x, side) + SentNow(x, move, side)
  {
    if move == A { MoveSendsA(x); } else { MoveSendsA(Swap(x)); }
  }

  lemma JoinedFrames(a: seq<Frame>, b: seq<Frame>, c: seq<Frame>)
    ensures a + b + c == a + (b + c)
  {
  }

  lemma {:induction false} RunSends(x: Pair, sides: seq<Side>, side: Side, x': Pair)
    requires Inv(x) && IsRun(x, sides) && x' == After(x, sides)
    ensures SentOf(x', side) == SentOf(x, side) + SentIn(x, sides, side)
    decreases |sides|
  {
    if sides != [] {
      var y, rest := Move(x, sides[0]), sides[1..];
      MoveSends(x, sides[0], side, y);
      RunSends(y, rest, side, x');
      JoinedFrames(SentOf(x, side), SentNow(x, sides[0], side), SentIn(y, rest, side));
    }
  }

  /**
   * All that `c` sends in a handshake with `d`: with the same build, its handshake and its pid and secret;
   * with another build, the handshake only if it starts, and the complaint only if `d` starts and this is
   * a debug build; nothing if neither of them starts.
   */
  function Dialogue(c: Config, d: Config): seq<Frame> {
    if !c.initHandshake && !d.initHandshake then []
    else if c.magic == d.magic && c.version == d.version then [Handshake(c.magic, c.version), Init(c.pid, c.secret)]
    else
      (if c.initHandshake then [Handshake(c.magic, c.version)] else [])
      + if d.initHandshake && c.debug then
          [Raw(if c.magic != d.magic then c.numberText else c.versionText(d.version)), Frame.Shutdown]
        else []
  }

  /** What the two sides send in any maximal run. */
  lemma AllSent(a: Config, b: Config, sides: seq<Side>)
    requires IsRun(Meet(a, b), sides) && Stuck(After(Meet(a, b), sides))
    ensures SentIn(Meet(a, b), sides, A) == Dialogue(a, b) && SentIn(Meet(a, b), sides, B) == Dialogue(b, a)
  {
    Outcomes(a, b, sides);
    SameConfigs(Meet(a, b), sides);
    RunSends(Meet(a, b), sides, A, After(Meet(a, b), sides));
    RunSends(Meet(a, b), sides, B, After(Meet(a, b), sides));
  }
}
