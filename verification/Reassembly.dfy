/** The receiving side of a participant: what `handle_frames_mgr` makes of incoming frames. */
module Reassembly {
  import opened Types
  import opened Message

  datatype StreamInfo = StreamInfo(prio: u8, promises: Promises, recvOpen: bool)

  /** Messages being put together, the open streams, and everything handed to the streams so far. */
  datatype Rx = Rx(
    messages: map<Mid, IncomingMessage>,
    streams: map<Sid, StreamInfo>,
    delivered: seq<IncomingMessage>)

  const NO_RX := Rx(map[], map[], [])

  /** The frames that may reach a participant; any other one panics it. */
  predicate Expected(f: Frame) { !f.Handshake? && !f.Init? && !f.Raw? }

  /** A complete message goes to its stream, or is dropped when there is none or it is closing. */
  function Deliver(rx: Rx, imsg: IncomingMessage): Rx {
    if imsg.sid in rx.streams && rx.streams[imsg.sid].recvOpen then rx.(delivered := rx.delivered + [imsg]) else rx
  }

  function Receive(rx: Rx, f: Frame): Rx
    requires Expected(f)
  {
    match f
    case OpenStream(sid, prio, promises) => rx.(streams := rx.streams[sid := StreamInfo(prio, promises, true)])
    case CloseStream(sid) => rx.(streams := rx.streams - {sid})
    case DataHeader(mid, sid, length) => rx.(messages := rx.messages[mid := IncomingMessage([], length, mid, sid)])
    case Data(mid, start, data) =>
      if mid !in rx.messages then rx
      else
        var imsg := rx.messages[mid].(buffer := rx.messages[mid].buffer + data);
        if |imsg.buffer| == imsg.length then Deliver(rx.(messages := rx.messages - {mid}), imsg)
        else rx.(messages := rx.messages[mid := imsg])
    case Shutdown => rx.(streams := map[])
  }

  /** The first half of a local close: the stream takes no more messages, but is still known. */
  function StopReceiving(rx: Rx, sid: Sid): Rx {
    if sid in rx.streams then rx.(streams := rx.streams[sid := rx.streams[sid].(recvOpen := false)]) else rx
  }

  /** The second half: it is forgotten. */
  function Forget(rx: Rx, sid: Sid): Rx { rx.(streams := rx.streams - {sid}) }

  predicate AllExpected(fs: seq<Frame>) { forall f :: f in fs ==> Expected(f) }

  function ReceiveAll(rx: Rx, fs: seq<Frame>): Rx
    requires AllExpected(fs)
    decreases |fs|
  {
    if fs == [] then rx else ReceiveAll(Receive(rx, fs[0]), fs[1..])
  }

  lemma {:induction false} ReceiveAppend(rx: Rx, a: seq<Frame>, b: seq<Frame>)
    requires AllExpected(a) && AllExpected(b)
    ensures AllExpected(a + b) && ReceiveAll(rx, a + b) == ReceiveAll(ReceiveAll(rx, a), b)
    decreases |a|
  {
    if a == [] {
      assert a + b == b;
    } else {
      assert (a + b)[1..] == a[1..] + b;
      ReceiveAppend(Receive(rx, a[0]), a[1..], b);
    }
  }

  // ----- what a stream got -----

  datatype Payload = Payload(mid: Mid, buffer: seq<u8>)

  /** The messages handed to stream `sid`, in order. */
  function Obtained(ds: seq<IncomingMessage>, sid: Sid): seq<Payload> {
    if ds == [] then []
    else (if ds[0].sid == sid then [Payload(ds[0].mid, ds[0].buffer)] else []) + Obtained(ds[1..], sid)
  }

  lemma Joined(a: seq<Payload>, b: seq<Payload>, c: seq<Payload>)
    ensures a + b + c == a + (b + c)
  {
  }

  lemma {:induction false} ObtainedAppend(ds: seq<IncomingMessage>, d: IncomingMessage, sid: Sid)
    ensures Obtained(ds + [d], sid) == Obtained(ds, sid) + Obtained([d], sid)
  {
    var last := [d];
    if ds == [] {
      assert ds + last == last;
    } else {
      var first, rest := ds[0], ds[1..];
      var head := if first.sid == sid then [Payload(first.mid, first.buffer)] else [];
      assert (ds + last)[0] == first && (ds + last)[1..] == rest + last;
      ObtainedAppend(rest, d, sid);
      Joined(head, Obtained(rest, sid), Obtained(last, sid));
    }
  }

  // ----- a stream that is closed -----

  /** The stream is unknown, or is being closed. */
  predicate Deaf(rx: Rx, sid: Sid) { sid in rx.streams ==> !rx.streams[sid].recvOpen }

  predicate Reopens(fs: seq<Frame>, sid: Sid) { exists f :: f in fs && f.OpenStream? && f.sid == sid }

  lemma DeafStep(rx: Rx, f: Frame, sid: Sid)
    requires Expected(f) && Deaf(rx, sid) && !(f.OpenStream? && f.sid == sid)
    ensures Deaf(Receive(rx, f), sid)
    ensures Obtained(Receive(rx, f).delivered, sid) == Obtained(rx.delivered, sid)
  {
    if f.Data? && f.mid in rx.messages {
      var imsg := rx.messages[f.mid].(buffer := rx.messages[f.mid].buffer + f.data);
      ObtainedAppend(rx.delivered, imsg, sid);
      if imsg.sid != sid { assert Obtained([imsg], sid) == []; }
    }
  }

  /** Once it is being closed, a stream gets nothing any more, unless it is opened again. */
  lemma {:induction false} DeafGetsNothing(rx: Rx, fs: seq<Frame>, sid: Sid)
    requires AllExpected(fs) && Deaf(rx, sid) && !Reopens(fs, sid)
    ensures Deaf(ReceiveAll(rx, fs), sid)
    ensures Obtained(ReceiveAll(rx, fs).delivered, sid) == Obtained(rx.delivered, sid)
    decreases |fs|
  {
    if fs != [] {
      DeafStep(rx, fs[0], sid);
      DeafGetsNothing(Receive(rx, fs[0]), fs[1..], sid);
    }
  }

  /** After `Shutdown` no stream gets anything, until it is opened again. */
  lemma ShutdownDeafens(rx: Rx, fs: seq<Frame>, sid: Sid)
    requires AllExpected([Frame.Shutdown] + fs) && !Reopens(fs, sid)
    ensures Obtained(ReceiveAll(rx, [Frame.Shutdown] + fs).delivered, sid) == Obtained(rx.delivered, sid)
  {
    var shut := Receive(rx, Frame.Shutdown);
    assert ([Frame.Shutdown] + fs)[1..] == fs;
    assert Deaf(shut, sid);
    DeafGetsNothing(shut, fs, sid);
  }

  // ----- one message -----

  /** What the receiver holds of a message of which `cursor` bytes were sent. */
  function Received(m: Outgoing): IncomingMessage {
    IncomingMessage(m.buffer[..m.cursor], |m.buffer|, m.mid, m.sid)
  }

  /** The receiver is ready for the next fragment of `m`: it starts, or its table entry is in step. */
  predicate InStep(rx: Rx, m: Outgoing) {
    m.cursor > 0 ==> m.mid in rx.messages && rx.messages[m.mid] == Received(m)
  }

  lemma FragmentsExpected(m: Outgoing)
    ensures AllExpected(NextFrames(m))
  {
  }

  lemma ReceiveTwo(rx: Rx, f: Frame, g: Frame)
    requires Expected(f) && Expected(g)
    ensures ReceiveAll(rx, [f]) == Receive(rx, f)
    ensures ReceiveAll(rx, [f] + [g]) == Receive(Receive(rx, f), g)
  {
    assert ReceiveAll(Receive(rx, f), [g]) == Receive(Receive(rx, f), g);
    ReceiveAppend(rx, [f], [g]);
  }

  /** The data frame of the next fragment, arriving where the message so far is in the table. */
  lemma ReceiveData(rx: Rx, m: Outgoing)
    requires m.cursor < |m.buffer| && m.mid in rx.messages && rx.messages[m.mid] == Received(m)
    ensures Receive(rx, Data(m.mid, m.cursor, m.buffer[m.cursor..m.cursor + ToSend(m)])) ==
      if Finishes(m) then Deliver(rx.(messages := rx.messages - {m.mid}), Received(Advanced(m)))
      else rx.(messages := rx.messages[m.mid := Received(Advanced(m))])
  {
    var k := m.cursor + ToSend(m);
    assert m.buffer[..m.cursor] + m.buffer[m.cursor..k] == m.buffer[..k];
  }

  /** One turn's frames move the receiver along with the sender's cursor. */
  lemma ReceiveFragment(rx: Rx, m: Outgoing)
    requires m.cursor < |m.buffer| && InStep(rx, m)
    ensures AllExpected(NextFrames(m)) && ReceiveAll(rx, NextFrames(m)) ==
      if Finishes(m) then Deliver(rx.(messages := rx.messages - {m.mid}), Received(Advanced(m)))
      else rx.(messages := rx.messages[m.mid := Received(Advanced(m))])
  {
    var data := Data(m.mid, m.cursor, m.buffer[m.cursor..m.cursor + ToSend(m)]);
    if m.cursor == 0 {
      var header := DataHeader(m.mid, m.sid, |m.buffer|);
      ReceiveTwo(rx, header, data);
      var rx1 := Receive(rx, header);
      assert m.buffer[..0] == [];
      ReceiveData(rx1, m);
      assert rx1.messages - {m.mid} == rx.messages - {m.mid};
    } else {
      assert NextFrames(m) == [data];
      ReceiveTwo(rx, data, data);
      ReceiveData(rx, m);
    }
  }
}
