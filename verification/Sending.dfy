/** The fields behind the sending managers of a participant, and one step of each manager on them. */
module Sending {
  import opened Types
  import opened Message
  import opened Prios

  type Buffer = b: seq<u8> | |b| <= U64_MAX

  /** A stream that is being closed, and the sender its flush will use. */
  datatype Pending = Pending(sid: Sid, token: Token)

  /**
   * `posted` and `requests` are the channels to the scheduler, `fired` the flush senders used so
   * far; `prioOf` and `mids` are what the streams know of themselves, `dropped` the streams whose
   * owner let go of them; `closeQueue` is the channel to `stream_close_mgr` and `closing` the stream
   * it waits for; `apiOpen` tells whether the participant still reports streams to its user, `failed`
   * whether it was closed for an error; `outgoing` lists the frames handed to the channel.
   */
  datatype Fields = Fields(
    s: Sched,
    posted: seq<Posted>,
    requests: seq<FlushRequest>,
    fired: set<Token>,
    prioOf: map<Sid, Prio>,
    mids: map<Sid, Mid>,
    sendClosed: set<Sid>,
    dropped: set<Sid>,
    closeQueue: seq<Sid>,
    closing: Option<Pending>,
    nextToken: Token,
    nextSid: nat,
    apiOpen: bool,
    failed: bool,
    outgoing: seq<Frame>)

  function Used(fired: seq<Token>): set<Token> { set t | t in fired }

  lemma UsedJoin(a: seq<Token>, b: seq<Token>)
    ensures Used(a + b) == Used(a) + Used(b)
  {
  }

  function Fresh(offset: Sid): Fields {
    Fields(Initial(), [], [], {}, map[], map[], {}, {}, [], None, 0, offset, true, false, [])
  }

  datatype LocalOp =
    | OpenStream(prio: Prio, promises: Promises)
    | PeerOpened(sid: Sid, prio: Prio, promises: Promises)
    | SendRaw(sid: Sid, buffer: Buffer)
    | DropStream(sid: Sid)
    | BeginClose
    | FillAndSend(n: nat)
    | FinishClose
    | CloseApi(error: bool)

  /** What the owners of the streams and the channels allow, as long as no stream id is used by both sides. */
  predicate CanStep(f: Fields, op: LocalOp) {
    match op
    case OpenStream(_, _) => !f.failed && f.nextSid <= U64_MAX && f.nextSid !in f.prioOf
    case PeerOpened(sid, _, _) => sid !in f.prioOf
    case SendRaw(sid, _) => sid in f.prioOf && sid in f.mids && sid !in f.dropped && f.mids[sid] < U64_MAX
    case DropStream(sid) => sid in f.mids && sid !in f.dropped
    case BeginClose => f.closing == None && f.closeQueue != []
    case FillAndSend(_) => true
    case FinishClose => f.closing.Some? && f.closing.value.token in f.fired
    case CloseApi(_) => true
  }

  function Step(f: Fields, op: LocalOp): Fields
    requires CanStep(f, op)
  {
    match op
    case OpenStream(prio, promises) =>
      f.(prioOf := f.prioOf[f.nextSid := prio], mids := f.mids[f.nextSid := 0], nextSid := f.nextSid + 1,
         outgoing := f.outgoing + [Frame.OpenStream(f.nextSid, prio, promises)])
    case PeerOpened(sid, prio, _) =>
      // a stream that nobody is told of is dropped at once
      f.(prioOf := f.prioOf[sid := prio], mids := f.mids[sid := 0],
         dropped := f.dropped + if f.apiOpen then {} else {sid},
         closeQueue := f.closeQueue + if f.apiOpen then [] else [sid])
    case SendRaw(sid, buffer) =>
      if sid in f.sendClosed then f
      else
        var msg := OutgoingMessage(buffer, 0, f.mids[sid], sid);
        f.(posted := f.posted + [Posted(f.prioOf[sid], Item(sid, msg))], mids := f.mids[sid := f.mids[sid] + 1])
    case DropStream(sid) =>
      f.(dropped := f.dropped + {sid}, closeQueue := if sid in f.sendClosed then f.closeQueue else f.closeQueue + [sid])
    case BeginClose =>
      var sid := f.closeQueue[0];
      f.(closeQueue := f.closeQueue[1..], sendClosed := f.sendClosed + {sid},
         requests := f.requests + [FlushRequest(sid, f.nextToken)],
         closing := Some(Pending(sid, f.nextToken)), nextToken := f.nextToken + 1)
    case FillAndSend(n) =>
      var out := Fill(f.s, f.posted, f.requests, n);
      f.(s := out.s, posted := [], requests := [], fired := f.fired + Used(out.fired),
         outgoing := f.outgoing + out.frames)
    case FinishClose =>
      f.(closing := None, outgoing := f.outgoing + [Frame.CloseStream(f.closing.value.sid)])
    case CloseApi(error) =>
      f.(sendClosed := f.sendClosed + f.prioOf.Keys, apiOpen := false, failed := f.failed || error)
  }
}
