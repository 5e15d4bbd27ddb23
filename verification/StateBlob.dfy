/**
The plug-in state blob of src/common/state_snapshot.hpp: a twenty-byte header
(magic, version, two sizes, checksum) followed by the component state and the
controller state.
 */
module StateBlob {
  import opened Wrappers
  import opened Bytes
  import opened Crc32

  const MAGIC: nat := 0x31545356
  const VERSION: nat := 1
  const HEADER_BYTES: nat := 20
  const MAX_STATE_BYTES: nat := 16777216

  datatype PluginState = PluginState(component: seq<Byte>, controller: seq<Byte>)

  predicate Encodable(s: PluginState) {
    |s.component| + |s.controller| <= MAX_STATE_BYTES
  }

  ghost function Header(s: PluginState): (r: seq<Byte>)
    ensures |r| == HEADER_BYTES
  {
    Le32(MAGIC) + Le32(VERSION) + Le32(|s.component|) + Le32(|s.controller|)
    + Le32(Crc(s.component + s.controller))
  }

  ghost function Blob(s: PluginState): seq<Byte> {
    Header(s) + (s.component + s.controller)
  }

  method EncodeStateBlob(s: PluginState) returns (r: Option<seq<Byte>>)
    ensures r == if Encodable(s) then Some(Blob(s)) else None
  {
    if |s.component| >= TWO_32 || |s.controller| >= TWO_32 ||
       |s.component| + |s.controller| > MAX_STATE_BYTES {
      return None;
    }
    hide Le32, Crc;
    var out := Le32(MAGIC);
    out := out + Le32(VERSION);
    out := out + Le32(|s.component|);
    out := out + Le32(|s.controller|);
    var payload := s.component + s.controller;
    var crc := ComputeCrc(payload);
    out := out + Le32(crc);
    assert out == Header(s);
    return Some(out + payload);
  }

  // A blob, read back word by word.
  lemma BlobWords(bytes: seq<Byte>, s: PluginState)
    requires Encodable(s)
    ensures bytes == Blob(s)
       <==> && |bytes| == HEADER_BYTES + |s.component| + |s.controller|
            && ReadU32(bytes, 0) == Some(MAGIC) && ReadU32(bytes, 4) == Some(VERSION)
            && ReadU32(bytes, 8) == Some(|s.component|) && ReadU32(bytes, 12) == Some(|s.controller|)
            && ReadU32(bytes, 16) == Some(Crc(s.component + s.controller))
            && bytes[HEADER_BYTES..] == s.component + s.controller
  {
    hide Le32, ReadU32, Crc, At;
    var a, b, c, d := Le32(MAGIC), Le32(VERSION), Le32(|s.component|), Le32(|s.controller|);
    var e, payload := Le32(Crc(s.component + s.controller)), s.component + s.controller;
    AtWhole(bytes, Blob(s));
    AtConcat(bytes, 0, a + b + c + d + e, payload);
    AtConcat(bytes, 0, a + b + c + d, e);
    AtConcat(bytes, 0, a + b + c, d);
    AtConcat(bytes, 0, a + b, c);
    AtConcat(bytes, 0, a, b);
    ReadU32Spec(bytes, 0, MAGIC);
    ReadU32Spec(bytes, 4, VERSION);
    ReadU32Spec(bytes, 8, |s.component|);
    ReadU32Spec(bytes, 12, |s.controller|);
    ReadU32Spec(bytes, 16, Crc(payload));
    if |bytes| == HEADER_BYTES + |payload| {
      AtEnd(bytes, HEADER_BYTES, payload);
    }
  }

  // A blob determines the state it holds.
  lemma BlobInjective(s: PluginState, t: PluginState)
    requires Encodable(s) && Encodable(t) && Blob(s) == Blob(t)
    ensures s == t
  {
    hide Blob, ReadU32, Crc;
    BlobWords(Blob(s), s);
    BlobWords(Blob(s), t);
    var p := s.component + s.controller;
    assert s.component == p[..|s.component|] && s.controller == p[|s.component|..];
    assert t.component == p[..|s.component|] && t.controller == p[|s.component|..];
  }

  // Accepts exactly the blobs of encodable states, and returns the state.
  method DecodeStateBlob(bytes: seq<Byte>) returns (r: Option<PluginState>)
    ensures r.Some? ==> Encodable(r.value) && Blob(r.value) == bytes
    ensures forall s :: Encodable(s) && Blob(s) == bytes ==> r == Some(s)
  {
    hide Blob, ReadU32, Crc;
    forall s | Encodable(s) && Blob(s) == bytes
      ensures && |bytes| == HEADER_BYTES + |s.component| + |s.controller|
              && ReadU32(bytes, 0) == Some(MAGIC) && ReadU32(bytes, 4) == Some(VERSION)
              && ReadU32(bytes, 8) == Some(|s.component|) && ReadU32(bytes, 12) == Some(|s.controller|)
              && ReadU32(bytes, 16) == Some(Crc(s.component + s.controller))
              && bytes[HEADER_BYTES..] == s.component + s.controller
    {
      BlobWords(bytes, s);
    }
    if |bytes| < HEADER_BYTES {
      return None;
    }
    var magic, version := ReadU32(bytes, 0), ReadU32(bytes, 4);
    var componentSize, controllerSize := ReadU32(bytes, 8), ReadU32(bytes, 12);
    var expectedCrc := ReadU32(bytes, 16);
    if magic.None? || version.None? || componentSize.None? || controllerSize.None? || expectedCrc.None? {
      return None;
    }
    if magic.value != MAGIC || version.value != VERSION {
      return None;
    }
    if componentSize.value > MAX_STATE_BYTES ||
       controllerSize.value > MAX_STATE_BYTES - componentSize.value {
      return None;
    }
    var payloadSize := componentSize.value + controllerSize.value;
    if |bytes| != HEADER_BYTES + payloadSize {
      return None;
    }
    var payload := bytes[HEADER_BYTES..HEADER_BYTES + payloadSize];
    assert payload == bytes[HEADER_BYTES..];
    var crc := ComputeCrc(payload);
    if crc != expectedCrc.value {
      return None;
    }
    var state := PluginState(payload[..componentSize.value], payload[componentSize.value..]);
    assert payload == state.component + state.controller;
    BlobWords(bytes, state);
    forall s | Encodable(s) && Blob(s) == bytes
      ensures s == state
    {
      BlobInjective(s, state);
    }
    return Some(state);
  }
}
