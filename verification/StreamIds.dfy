/** The stream ids two connected participants hand out (`open_mgr`). */
module StreamIds {
  import opened Types
  import C = Closing
  import E = EndToEnd
  import H = Channel
  import Delivery
  import Sending

  /** The ids of the streams that this side has opened. */
  function Own(l: C.Local): set<Sid> { l.net.prioOf.Keys - l.net.joined }

  /** They are exactly those from the offset up to the counter. */
  ghost predicate FromOffset(l: C.Local, offset: Sid) {
    && offset <= l.f.nextSid && l.net.joined <= l.net.prioOf.Keys
    && forall sid: Sid :: sid in Own(l) <==> offset <= sid < l.f.nextSid
  }

  /** What a step does to the streams that are known. */
  lemma DoJoined(l: C.Local, op: Sending.LocalOp)
    requires C.LInv(l) && C.Permitted(l, op)
    ensures C.Do(l, op).net.joined == l.net.joined + if op.PeerOpened? then {op.sid} else {}
  {
    match op
    case OpenStream(prio, promises) => E.Single(l.net, Delivery.Open(l.f.nextSid, prio, promises, Delivery.Us));
    case PeerOpened(sid, prio, promises) => E.Single(l.net, Delivery.Open(sid, prio, promises, Delivery.Peer));
    case FillAndSend(k) => C.FillRuns(l, k);
    case FinishClose => E.Single(l.net, Delivery.Close(l.f.closing.value.sid));
    case _ =>
  }

  lemma DoKnown(l: C.Local, op: Sending.LocalOp)
    requires C.LInv(l) && C.Permitted(l, op)
    ensures C.Do(l, op).net.prioOf.Keys == l.net.prioOf.Keys
      + (if op.OpenStream? then {l.f.nextSid} else {}) + (if op.PeerOpened? then {op.sid} else {})
  {
    C.DoKeeps(l, C.Do(l, op), op);
    assert C.Do(l, op).net.prioOf == Sending.Step(l.f, op).prioOf && l.net.prioOf == l.f.prioOf;
  }

  lemma DoFromOffset(l: C.Local, op: Sending.LocalOp, offset: Sid)
    requires C.LInv(l) && C.Permitted(l, op) && FromOffset(l, offset)
    ensures FromOffset(C.Do(l, op), offset)
  {
    var l' := C.Do(l, op);
    DoKnown(l, op);
    DoJoined(l, op);
    assert l.net.prioOf == l.f.prioOf;
    assert Own(l') == Own(l) + if op.OpenStream? then {l.f.nextSid} else {};
  }

  lemma {:induction false} RunFromOffset(l: C.Local, ops: seq<Sending.LocalOp>, offset: Sid)
    requires C.LInv(l) && C.Can(l, ops) && FromOffset(l, offset)
    ensures FromOffset(C.RunLocal(l, ops), offset)
    decreases |ops|
  {
    if ops != [] {
      var l' := C.Do(l, ops[0]);
      C.DoKeeps(l, l', ops[0]);
      DoFromOffset(l, ops[0], offset);
      RunFromOffset(l', ops[1..], offset);
    }
  }

  /**
   * After a handshake that connected them, the ids of the two sides are disjoint, whatever each of
   * them does, exactly as long as the side that started the handshake has not used up the ids below
   * the other side's offset, or that other side has opened nothing.
   */
  lemma IdsNeverCollide(x: H.Pair, opsA: seq<Sending.LocalOp>, opsB: seq<Sending.LocalOp>)
    requires H.Connected(x) && x.a.initHandshake
    requires C.Can(C.Begin(x.pa.outcome.offset), opsA) && C.Can(C.Begin(x.pb.outcome.offset), opsB)
    ensures var a, b := C.RunLocal(C.Begin(x.pa.outcome.offset), opsA), C.RunLocal(C.Begin(x.pb.outcome.offset), opsB);
      Own(a) !! Own(b) <==>
      a.f.nextSid <= U64_MAX / 2 || b.f.nextSid == U64_MAX / 2
  {
    var a, b := C.RunLocal(C.Begin(x.pa.outcome.offset), opsA), C.RunLocal(C.Begin(x.pb.outcome.offset), opsB);
    RunFromOffset(C.Begin(x.pa.outcome.offset), opsA, x.pa.outcome.offset);
    RunFromOffset(C.Begin(x.pb.outcome.offset), opsB, x.pb.outcome.offset);
    C.RunKeepsLocal(C.Begin(x.pa.outcome.offset), opsA);
    C.RunKeepsLocal(C.Begin(x.pb.outcome.offset), opsB);
    Disjoint(a, b, x.pa.outcome.offset, x.pb.outcome.offset);
  }

  lemma Disjoint(a: C.Local, b: C.Local, offsetA: Sid, offsetB: Sid)
    requires FromOffset(a, offsetA) && FromOffset(b, offsetB) && offsetA == 0 && offsetB == U64_MAX / 2
    ensures Own(a) !! Own(b) <==> a.f.nextSid <= offsetB || b.f.nextSid == offsetB
  {
    if a.f.nextSid > offsetB && b.f.nextSid != offsetB {
      assert offsetB in Own(a) && offsetB in Own(b);
    }
  }
}
