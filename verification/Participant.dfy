/** The managers of a participant (`network/src/participant.rs`) as objects that change state. */
module Participant {
  import opened Types
  import opened Message
  import opened Prios
  import opened Reassembly
  import opened Sending
  import C = Closing
  import S = Scheduling

  // ----- open_mgr, send_mgr and stream_close_mgr, with the streams they serve -----

  class SendSide {
    const prios: PrioManager
    /** The priority each stream was opened with, and its message counter. */
    var prioOf: map<Sid, Prio>
    var mids: map<Sid, Mid>
    var streamIds: nat
    var sendClosed: set<Sid>
    var dropped: set<Sid>
    var closeStreamRx: seq<Sid>
    var closing: Option<Pending>
    var nextToken: Token
    var apiOpen: bool
    var failed: bool
    /** The frames handed to the channel. */
    var outgoing: seq<Frame>

    ghost const offset: Sid
    /** All steps so far, in order. */
    ghost var history: seq<LocalOp>

    /** The fields are where a legal run of scheduler, wire and receiver has led to. */
    ghost predicate Valid()
      reads this, prios, prios.points, prios.messages
    {
      prios.Valid() && C.Can(C.Begin(offset), history) && Local().f == Now()
    }

    /** The managers together with the wire and the receiver behind them. */
    ghost function Local(): C.Local
      requires C.Can(C.Begin(offset), history)
      reads this`history
    {
      C.RunLocal(C.Begin(offset), history)
    }

    ghost function Now(): Fields
      requires prios.Valid()
      reads this`prioOf, this`mids, this`streamIds, this`sendClosed, this`dropped, this`closeStreamRx
      reads this`closing, this`nextToken, this`apiOpen, this`failed, this`outgoing
      reads prios, prios.points, prios.messages
    {
      Fields(prios.State(), prios.messagesRx, prios.sidFlushedRx, Used(prios.fired), prioOf, mids,
             sendClosed, dropped, closeStreamRx, closing, nextToken, streamIds, apiOpen, failed, outgoing)
    }

    constructor (offset: Sid)
      ensures Valid() && Now() == Fresh(offset) && this.offset == offset && history == []
      ensures fresh(prios) && fresh(prios.points) && fresh(prios.messages)
    {
      prios := new PrioManager();
      prioOf, mids, streamIds := map[], map[], offset;
      sendClosed, dropped, closeStreamRx, closing, nextToken := {}, {}, [], None, 0;
      apiOpen, failed, outgoing := true, false, [];
      this.offset, history := offset, [];
    }

    /** The fields have taken a step that the channels allowed: it was a legal one. */
    ghost method Advance(op: LocalOp, before: Fields)
      requires prios.Valid() && C.Can(C.Begin(offset), history) && Local().f == before
      requires CanStep(before, op) && Now() == Step(before, op)
      modifies this`history
      ensures Valid() && history == old(history) + [op] && Now() == Step(before, op)
      ensures C.Permitted(old(Local()), op) && Local() == C.Do(old(Local()), op)
    {
      C.GuardsSuffice(offset, history, op, Local());
      history := history + [op];
    }

    /** One turn of `open_mgr`, on a channel that is up. */
    method Open(prio: Prio, promises: Promises) returns (sid: Sid)
      requires Valid() && CanStep(Now(), LocalOp.OpenStream(prio, promises))
      modifies this
      ensures Valid() && Now() == Step(old(Now()), LocalOp.OpenStream(prio, promises))
      ensures history == old(history) + [LocalOp.OpenStream(prio, promises)]
      ensures sid == old(streamIds) && sid !in old(prioOf)
    {
      ghost var before := Now();
      C.NextIsNew(offset, history, Local());
      sid := NewStream(prio, promises);
      Advance(LocalOp.OpenStream(prio, promises), before);
    }

    /** Takes the next stream id, tells the other side, and sets the stream up. */
    method NewStream(prio: Prio, promises: Promises) returns (sid: Sid)
      requires prios.Valid() && CanStep(Now(), LocalOp.OpenStream(prio, promises))
      modifies this`prioOf, this`mids, this`outgoing, this`streamIds
      ensures prios.Valid() && Now() == Step(old(Now()), LocalOp.OpenStream(prio, promises)) && sid == old(streamIds)
    {
      sid := streamIds;
      prioOf := prioOf[sid := prio];
      mids := mids[sid := 0];
      outgoing := outgoing + [Frame.OpenStream(sid, prio, promises)];
      streamIds := streamIds + 1;
    }

    /**
     * What `handle_frames_mgr` does for sending when the other side has opened a stream: messages can
     * be sent back on it. When nobody can be told of it, it is dropped, which asks for it to be closed.
     */
    method OpenedByPeer(sid: Sid, prio: Prio, promises: Promises)
      requires Valid() && sid !in prioOf
      modifies this
      ensures Valid() && Now() == Step(old(Now()), PeerOpened(sid, prio, promises))
      ensures history == old(history) + [PeerOpened(sid, prio, promises)]
    {
      ghost var before := Now();
      JoinStream(sid, prio, promises);
      Advance(PeerOpened(sid, prio, promises), before);
    }

    method JoinStream(sid: Sid, prio: Prio, ghost promises: Promises)
      requires prios.Valid() && sid !in prioOf
      modifies this`prioOf, this`mids, this`dropped, this`closeStreamRx
      ensures prios.Valid() && Now() == Step(old(Now()), PeerOpened(sid, prio, promises))
    {
      prioOf := prioOf[sid := prio];
      mids := mids[sid := 0];
      if !apiOpen {
        dropped := dropped + {sid};
        closeStreamRx := closeStreamRx + [sid];
      }
    }

    /** `Stream::send_raw`: `false` is the error that the stream is closed. */
    method Send(sid: Sid, buffer: Buffer) returns (ok: bool)
      requires Valid() && CanStep(Now(), SendRaw(sid, buffer))
      modifies this, prios`messagesRx
      ensures Valid() && Now() == Step(old(Now()), SendRaw(sid, buffer))
      ensures history == old(history) + [SendRaw(sid, buffer)]
      ensures ok <==> sid !in sendClosed
      ensures mids == if ok then old(mids)[sid := old(mids)[sid] + 1] else old(mids)
      ensures Local().accepted ==
        old(Local()).accepted + if ok then [OutgoingMessage(buffer, 0, old(mids)[sid], sid)] else []
    {
      ghost var before := Now();
      if sid in sendClosed {
        Advance(SendRaw(sid, buffer), before);
        return false;
      }
      var msg := OutgoingMessage(buffer, 0, mids[sid], sid);
      prios.messagesRx := prios.messagesRx + [Posted(prioOf[sid], Item(sid, msg))];
      mids := mids[sid := mids[sid] + 1];
      ok := true;
      Advance(SendRaw(sid, buffer), before);
    }

    /** `Stream::drop`: asks for the stream to be closed, unless it is already. */
    method Drop(sid: Sid)
      requires Valid() && CanStep(Now(), DropStream(sid))
      modifies this
      ensures Valid() && Now() == Step(old(Now()), DropStream(sid)) && history == old(history) + [DropStream(sid)]
      ensures sid in dropped && (sid in sendClosed || sid in closeStreamRx)
    {
      ghost var before := Now();
      dropped := dropped + {sid};
      if sid !in sendClosed {
        closeStreamRx := closeStreamRx + [sid];
      }
      Advance(DropStream(sid), before);
    }

    /** `stream_close_mgr` up to its wait. */
    method StartClosing()
      requires Valid() && CanStep(Now(), BeginClose)
      modifies this, prios`sidFlushedRx
      ensures Valid() && Now() == Step(old(Now()), BeginClose) && history == old(history) + [BeginClose]
    {
      ghost var before := Now();
      StopAndAsk();
      Advance(BeginClose, before);
    }

    /** Stops the API from using the next stream to be closed, then asks the scheduler for a flush. */
    method StopAndAsk()
      requires prios.Valid() && CanStep(Now(), BeginClose)
      modifies this`closeStreamRx, this`sendClosed, this`closing, this`nextToken, prios`sidFlushedRx
      ensures prios.Valid() && Now() == Step(old(Now()), BeginClose)
    {
      var sid := closeStreamRx[0];
      closeStreamRx := closeStreamRx[1..];
      sendClosed := sendClosed + {sid};
      prios.sidFlushedRx := prios.sidFlushedRx + [FlushRequest(sid, nextToken)];
      closing := Some(Pending(sid, nextToken));
      nextToken := nextToken + 1;
    }

    /** `stream_close_mgr` after its wait: only now tell the other side. */
    method EndClosing()
      requires Valid() && CanStep(Now(), FinishClose)
      modifies this
      ensures Valid() && Now() == Step(old(Now()), FinishClose) && history == old(history) + [FinishClose]
      ensures var sid := old(closing).value.sid;
        && CountAll(prios.State().queues, sid) == 0 && C.NonePosted(Local(), sid) && sid in Local().net.closed
    {
      ghost var before := Now();
      C.ReadyToFinish(offset, history, Local());
      outgoing := outgoing + [Frame.CloseStream(closing.value.sid)];
      closing := None;
      Advance(FinishClose, before);
    }

    /** `close_api`: no open stream can be used any more, though what was posted is still sent. */
    method CloseApi(error: bool)
      requires Valid()
      modifies this
      ensures Valid() && Now() == Step(old(Now()), LocalOp.CloseApi(error))
      ensures history == old(history) + [LocalOp.CloseApi(error)]
      ensures !apiOpen && (error ==> failed) && forall sid :: sid in prioOf ==> sid in sendClosed
    {
      ghost var before := Now();
      apiOpen := false;
      if error { failed := true; }
      sendClosed := sendClosed + prioOf.Keys;
      Advance(LocalOp.CloseApi(error), before);
    }

    /** One round of `send_mgr`; tells how many frames there were. */
    method Round(framesPerTick: nat) returns (len: nat)
      requires Valid()
      modifies this, prios, prios.points, prios.messages
      ensures Valid() && Now() == Step(old(Now()), FillAndSend(framesPerTick))
      ensures history == old(history) + [FillAndSend(framesPerTick)] && len == |outgoing| - |old(outgoing)|
      ensures framesPerTick > 0 ==> (S.Forgotten(prios.State()) <==> framesPerTick > old(C.WorkAhead(Now())))
    {
      ghost var before := Now();
      len := FillThenSend(framesPerTick);
      if framesPerTick > 0 { C.FillForgets(before, framesPerTick, Now()); }
      Advance(FillAndSend(framesPerTick), before);
    }

    /** Fill, then send every frame. */
    method FillThenSend(framesPerTick: nat) returns (len: nat)
      requires prios.Valid()
      modifies this`outgoing, prios, prios.points, prios.messages
      ensures prios.Valid() && Now() == Step(old(Now()), FillAndSend(framesPerTick))
      ensures len == |outgoing| - |old(outgoing)|
    {
      ghost var f := Now();
      ghost var out := Fill(f.s, f.posted, f.requests, framesPerTick);
      var frames := prios.FillFrames(framesPerTick);
      assert prios.State() == out.s && frames == out.frames && prios.fired == old(prios.fired) + out.fired;
      UsedJoin(old(prios.fired), out.fired);
      SendFrames(frames);
      len := |frames|;
    }

    /** `send_frame` for each frame of a round, on a channel that is up. */
    method SendFrames(frames: seq<Frame>)
      modifies this`outgoing
      ensures outgoing == old(outgoing) + frames
    {
      for i := 0 to |frames|
        invariant outgoing == old(outgoing) + frames[..i]
      {
        outgoing := outgoing + [frames[i]];
      }
      assert frames[..|frames|] == frames;
    }
  }

  // ----- handle_frames_mgr -----

  /** The streams that are opened, up to the first `Shutdown`. */
  function OpenedBeforeShutdown(frames: seq<Frame>): seq<Sid> {
    if frames == [] || frames[0].Shutdown? then []
    else (if frames[0].OpenStream? then [frames[0].sid] else []) + OpenedBeforeShutdown(frames[1..])
  }

  /** What the API gets to see: the streams reported to it, whether there will be more, and a disconnect. */
  datatype View = View(reported: seq<Sid>, apiOpen: bool, disconnected: bool)

  function Show(v: View, frame: Frame): View {
    match frame
    case OpenStream(sid, _, _) => v.(reported := v.reported + if v.apiOpen then [sid] else [])
    case Shutdown => v.(apiOpen := false, disconnected := true)
    case _ => v
  }

  function ShowAll(v: View, frames: seq<Frame>): View
    decreases |frames|
  {
    if frames == [] then v else ShowAll(Show(v, frames[0]), frames[1..])
  }

  lemma ShutdownIn(frames: seq<Frame>, first: Frame, rest: seq<Frame>)
    requires frames != [] && first == frames[0] && rest == frames[1..]
    ensures Frame.Shutdown in frames <==> first.Shutdown? || Frame.Shutdown in rest
  {
    assert frames == [first] + rest;
  }

  lemma JoinedSids(a: seq<Sid>, b: seq<Sid>, c: seq<Sid>)
    ensures a + b + c == a + (b + c)
  {
  }

  lemma {:induction false} ShownFlags(v: View, frames: seq<Frame>)
    ensures ShowAll(v, frames).apiOpen == (v.apiOpen && Frame.Shutdown !in frames)
    ensures ShowAll(v, frames).disconnected == (v.disconnected || Frame.Shutdown in frames)
    decreases |frames|
  {
    if frames != [] {
      ShownFlags(Show(v, frames[0]), frames[1..]);
      ShutdownIn(frames, frames[0], frames[1..]);
    }
  }

  /** What becomes known of the first frame. */
  function FirstShown(v: View, first: Frame): seq<Sid> {
    if first.OpenStream? && v.apiOpen then [first.sid] else []
  }

  lemma FirstReported(v: View, first: Frame, rest: seq<Frame>, frames: seq<Frame>, v': View)
    requires frames != [] && first == frames[0] && rest == frames[1..] && v' == Show(v, first)
    ensures v'.reported == v.reported + FirstShown(v, first)
    ensures (if v.apiOpen then OpenedBeforeShutdown(frames) else []) ==
      FirstShown(v, first) + if v'.apiOpen then OpenedBeforeShutdown(rest) else []
  {
  }

  lemma {:induction false} ShownReported(v: View, frames: seq<Frame>)
    ensures ShowAll(v, frames).reported == v.reported + if v.apiOpen then OpenedBeforeShutdown(frames) else []
    decreases |frames|
  {
    if frames != [] {
      var first, rest := frames[0], frames[1..];
      var v' := Show(v, first);
      ShownReported(v', rest);
      FirstReported(v, first, rest, frames, v');
      JoinedSids(v.reported, FirstShown(v, first), if v'.apiOpen then OpenedBeforeShutdown(rest) else []);
    }
  }

  /** The receiving side: the reassembly table, the stream table, and what the API gets to see. */
  class FrameHandler {
    var messages: map<Mid, IncomingMessage>
    var streams: map<Sid, StreamInfo>
    /** The messages handed to the streams' channels, in order. */
    var delivered: seq<IncomingMessage>
    /** The streams reported to the API as opened from remote. */
    var reported: seq<Sid>
    var apiOpen: bool
    /** The streams whose `send_closed` flag is set. */
    var sendClosed: set<Sid>
    var disconnected: bool

    ghost function State(): Rx
      reads this
    {
      Rx(messages, streams, delivered)
    }

    ghost function Shown(): View
      reads this
    {
      View(reported, apiOpen, disconnected)
    }

    constructor ()
      ensures State() == NO_RX && reported == [] && apiOpen && sendClosed == {} && !disconnected
    {
      messages, streams, delivered := map[], map[], [];
      reported, apiOpen, sendClosed, disconnected := [], true, {}, false;
    }

    /** `close_api`: no stream can be used any more. */
    method CloseApi(error: bool)
      modifies this
      ensures State() == old(State()).(streams := map[])
      ensures reported == old(reported) && !apiOpen
      ensures sendClosed == old(sendClosed) + old(streams).Keys
      ensures disconnected == (old(disconnected) || error)
    {
      if error { disconnected := true; }
      apiOpen := false;
      sendClosed := sendClosed + streams.Keys;
      streams := map[];
    }

    method OpenFromRemote(sid: Sid, prio: u8, promises: Promises)
      modifies this
      ensures State() == Receive(old(State()), Frame.OpenStream(sid, prio, promises))
      ensures reported == old(reported) + if old(apiOpen) then [sid] else []
      ensures apiOpen == old(apiOpen) && sendClosed == old(sendClosed) - {sid} && disconnected == old(disconnected)
    {
      streams := streams[sid := StreamInfo(prio, promises, true)];
      sendClosed := sendClosed - {sid};
      if apiOpen { reported := reported + [sid]; }
    }

    method CloseFromRemote(sid: Sid)
      modifies this
      ensures State() == Receive(old(State()), Frame.CloseStream(sid))
      ensures reported == old(reported) && apiOpen == old(apiOpen) && disconnected == old(disconnected)
      ensures sendClosed == old(sendClosed) + if sid in old(streams) then {sid} else {}
    {
      if sid in streams {
        streams := streams - {sid};
        sendClosed := sendClosed + {sid};
      }
      assert old(streams) - {sid} == streams;
    }

    /** The effect of `stream_close_mgr` on a stream before it waits: it takes no more messages. */
    method StopReceiving(sid: Sid)
      modifies this`streams, this`sendClosed
      ensures State() == Reassembly.StopReceiving(old(State()), sid) && Deaf(State(), sid)
      ensures streams.Keys == old(streams).Keys && messages == old(messages) && delivered == old(delivered)
      ensures forall other :: other in streams && other != sid ==> streams[other] == old(streams)[other]
      ensures sendClosed == old(sendClosed) + if sid in old(streams) then {sid} else {}
    {
      if sid in streams {
        sendClosed := sendClosed + {sid};
        streams := streams[sid := streams[sid].(recvOpen := false)];
      }
    }

    /** Its effect after the wait: the stream is forgotten. */
    method Forget(sid: Sid)
      modifies this`streams
      ensures State() == Reassembly.Forget(old(State()), sid) && Deaf(State(), sid)
      ensures streams == old(streams) - {sid} && messages == old(messages) && delivered == old(delivered)
    {
      streams := streams - {sid};
    }

    method Append(mid: Mid, data: seq<u8>, ghost start: u64)
      modifies this`messages, this`delivered
      ensures State() == Receive(old(State()), Frame.Data(mid, start, data))
    {
      var finished := false;
      if mid in messages {
        var imsg := messages[mid];
        imsg := imsg.(buffer := imsg.buffer + data);
        messages := messages[mid := imsg];
        finished := |imsg.buffer| == imsg.length;
      }
      if finished {
        var imsg := messages[mid];
        messages := messages - {mid};
        assert messages == old(messages) - {mid};
        if imsg.sid in streams && streams[imsg.sid].recvOpen {
          delivered := delivered + [imsg];
        }
      }
    }

    /** One turn of `handle_frames_mgr`. */
    method HandleFrame(frame: Frame)
      requires Expected(frame)
      modifies this
      ensures State() == Receive(old(State()), frame)
      ensures frame.Shutdown? ==> forall sid :: Deaf(State(), sid)
      ensures reported == old(reported) + if frame.OpenStream? && old(apiOpen) then [frame.sid] else []
      ensures apiOpen == (old(apiOpen) && !frame.Shutdown?)
      ensures disconnected == (old(disconnected) || frame.Shutdown?)
      ensures Shown() == Show(old(Shown()), frame)
      ensures sendClosed ==
        match frame
        case OpenStream(sid, _, _) => old(sendClosed) - {sid}
        case CloseStream(sid) => old(sendClosed) + if sid in old(streams) then {sid} else {}
        case Shutdown => old(sendClosed) + old(streams).Keys
        case _ => old(sendClosed)
    {
      match frame
      case OpenStream(sid, prio, promises) => OpenFromRemote(sid, prio, promises);
      case CloseStream(sid) => CloseFromRemote(sid);
      case DataHeader(mid, sid, length) => messages := messages[mid := IncomingMessage([], length, mid, sid)];
      case Data(mid, start, data) => Append(mid, data, start);
      case Shutdown => CloseApi(true);
    }

    /** `handle_frames_mgr`: until the channels are gone. */
    method HandleFrames(frames: seq<Frame>)
      requires AllExpected(frames)
      modifies this
      ensures State() == ReceiveAll(old(State()), frames)
      ensures reported == old(reported) + if old(apiOpen) then OpenedBeforeShutdown(frames) else []
      ensures disconnected == (old(disconnected) || Frame.Shutdown in frames)
      ensures apiOpen == (old(apiOpen) && Frame.Shutdown !in frames)
    {
      ghost var received, shown := ReceiveAll(State(), frames), ShowAll(Shown(), frames);
      ShownFlags(Shown(), frames);
      ShownReported(Shown(), frames);
      for i := 0 to |frames|
        invariant ReceiveAll(State(), frames[i..]) == received
        invariant ShowAll(Shown(), frames[i..]) == shown
      {
        assert frames[i..][1..] == frames[i + 1..];
        HandleFrame(frames[i]);
      }
    }
  }
}
