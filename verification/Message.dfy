/** Outgoing messages and their fragmentation into frames (`network/src/message.rs`). */
module Message {
  import opened Types

  /** Payload of a full data frame. */
  const FRAME_DATA_SIZE: nat := 1400

  datatype OutgoingRecord = OutgoingMessage(buffer: seq<u8>, cursor: nat, mid: Mid, sid: Sid)

  /** The cursor never passes the end of the buffer, whose length is a `u64`. */
  type Outgoing = m: OutgoingRecord | m.cursor <= |m.buffer| <= U64_MAX witness OutgoingMessage([], 0, 0, 0)

  datatype IncomingMessage = IncomingMessage(buffer: seq<u8>, length: u64, mid: Mid, sid: Sid)

  function ToSend(m: Outgoing): nat {
    var left := |m.buffer| - m.cursor;
    if left < FRAME_DATA_SIZE then left else FRAME_DATA_SIZE
  }

  /** The frames of one call of `fill_next`. */
  function NextFrames(m: Outgoing): seq<Frame> {
    if ToSend(m) == 0 then []
    else
      (if m.cursor == 0 then [DataHeader(m.mid, m.sid, |m.buffer|)] else [])
      + [Data(m.mid, m.cursor, m.buffer[m.cursor..m.cursor + ToSend(m)])]
  }

  function Advanced(m: Outgoing): Outgoing { m.(cursor := m.cursor + ToSend(m)) }

  /** Whether the next call of `fill_next` is the last one. */
  predicate Finishes(m: Outgoing) { |m.buffer| - m.cursor <= FRAME_DATA_SIZE }

  /** `OutgoingMessage::fill_next`: extends `frames` and tells whether the message is used up. */
  method FillNext(m: Outgoing, frames: seq<Frame>) returns (m': Outgoing, frames': seq<Frame>, finished: bool)
    ensures frames' == frames + NextFrames(m)
    ensures m' == Advanced(m)
    ensures finished <==> Finishes(m)
  {
    frames' := frames;
    var left := |m.buffer[m.cursor..]|;
    var toSend := if left < FRAME_DATA_SIZE then left else FRAME_DATA_SIZE;
    if toSend > 0 {
      if m.cursor == 0 {
        frames' := frames' + [DataHeader(m.mid, m.sid, |m.buffer|)];
      }
      frames' := frames' + [Data(m.mid, m.cursor, m.buffer[m.cursor..][..toSend])];
      assert m.buffer[m.cursor..][..toSend] == m.buffer[m.cursor..m.cursor + toSend];
    }
    m' := m.(cursor := m.cursor + toSend);
    finished := m'.cursor >= |m.buffer|;
  }
}
