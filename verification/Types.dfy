/** The value types of `network/src/types.rs`. */
module Types {
  type u8 = n: nat | n < 0x100
  type u16 = n: nat | n < 0x1_0000
  type u32 = n: nat | n < 0x1_0000_0000
  type u64 = n: nat | n < 0x1_0000_0000_0000_0000
  type u128 = n: nat | n < 0x1_0000_0000_0000_0000_0000_0000_0000_0000

  const U64_MAX: u64 := 0xFFFF_FFFF_FFFF_FFFF

  type Mid = u64
  type Sid = u64
  type Pid = u128
  type Promises = u8
  /** Priorities index arrays of 64 entries. */
  type Prio = p: u8 | p < 64

  type Magic = s: seq<u8> | |s| == 7 witness [0, 0, 0, 0, 0, 0, 0]
  datatype Version = Version(major: u32, minor: u32, patch: u32)

  const STREAM_ID_OFFSET1: Sid := 0
  const STREAM_ID_OFFSET2: Sid := U64_MAX / 2

  datatype Frame =
    | Handshake(magic: Magic, version: Version)
    | Init(pid: Pid, secret: u128)
    | Shutdown
    | OpenStream(sid: Sid, prio: u8, promises: Promises)
    | CloseStream(sid: Sid)
    | DataHeader(mid: Mid, sid: Sid, length: u64)
    | Data(mid: Mid, start: u64, data: seq<u8>)
    | Raw(data: seq<u8>)

  datatype Option<+T> = None | Some(value: T)
}
