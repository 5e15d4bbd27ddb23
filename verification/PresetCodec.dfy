/**
The Rack preset file of src/rack/rack_preset_library.cpp: a 24-byte header, the
preset id, the name, and a whole session snapshot that repeats the id and
carries generation 1.
 */
module PresetCodec {
  import opened Wrappers
  import opened Bytes
  import opened Crc32
  import opened SessionCodec

  const PRESET_MAGIC: nat := 0x31505252
  const PRESET_VERSION: nat := 1
  const PRESET_HEADER_BYTES: nat := 40
  const MAX_NAME_BYTES: nat := 256
  const MAX_PRESET_BYTES: nat := 40 + MAX_NAME_BYTES + MAX_SNAPSHOT_BYTES

  datatype Preset = Preset(id: RackId, name: seq<Byte>, slots: seq<Slot>)

  function Embedded(p: Preset): Session {
    Session(p.id, 1, p.slots)
  }

  predicate ValidPreset(p: Preset) {
    ValidText(p.name, MAX_NAME_BYTES) && ValidSession(Embedded(p))
  }

  ghost function PresetPayload(p: Preset): seq<Byte> {
    p.id + p.name + Encoded(Embedded(p))
  }

  ghost function EncodedPreset(p: Preset): seq<Byte> {
    Le32(PRESET_MAGIC) + Le32(PRESET_VERSION) + Le32(|p.name|) + Le32(|Encoded(Embedded(p))|)
    + Le32(Crc(PresetPayload(p))) + Le32(0) + PresetPayload(p)
  }

  lemma EmbeddedSize(p: Preset)
    requires ValidPreset(p)
    ensures SESSION_HEADER_BYTES <= |Encoded(Embedded(p))| <= MAX_SNAPSHOT_BYTES
  {
    hide Le32, Le64, Crc, Body, ValidSlot;
    BodySize(p.slots);
    EncodedParts(Embedded(p));
  }

  method EncodePreset(preset: Preset) returns (r: Option<seq<Byte>>)
    ensures r == if ValidPreset(preset) then Some(EncodedPreset(preset)) else None
  {
    hide Le32, Crc, Encoded, ValidSlot;
    var idOk := RackIdIsNonzero(preset.id);
    var nul := HasNul(preset.name);
    if !idOk || preset.name == [] || |preset.name| > MAX_NAME_BYTES || nul || |preset.slots| > MAX_SLOTS {
      return None;
    }
    var snapshot := EncodeSession(Embedded(preset));
    if snapshot.None? {
      return None;
    }
    EmbeddedSize(preset);
    if PRESET_HEADER_BYTES + |preset.name| + |snapshot.value| > MAX_PRESET_BYTES {
      assert false;
    }
    var payload := preset.id + preset.name + snapshot.value;
    var crc := ComputeCrc(payload);
    var out := Le32(PRESET_MAGIC) + Le32(PRESET_VERSION) + Le32(|preset.name|) + Le32(|snapshot.value|);
    out := out + Le32(crc) + Le32(0);
    return Some(out + payload);
  }

  // An encoded preset, read back word by word.
  lemma PresetWords(bytes: seq<Byte>, p: Preset)
    requires ValidPreset(p)
    ensures bytes == EncodedPreset(p)
       <==> && |bytes| == PRESET_HEADER_BYTES + |p.name| + |Encoded(Embedded(p))|
            && ReadU32(bytes, 0) == Some(PRESET_MAGIC) && ReadU32(bytes, 4) == Some(PRESET_VERSION)
            && ReadU32(bytes, 8) == Some(|p.name|)
            && ReadU32(bytes, 12) == Some(|Encoded(Embedded(p))|)
            && ReadU32(bytes, 16) == Some(Crc(bytes[24..]))
            && ReadU32(bytes, 20) == Some(0)
            && bytes[24..40] == p.id
            && bytes[40..40 + |p.name|] == p.name
            && bytes[40 + |p.name|..] == Encoded(Embedded(p))
  {
    hide Le32, ReadU32, Crc, At, Encoded, ValidSession;
    EmbeddedSize(p);
    var snapshot := Encoded(Embedded(p));
    var a, b, c, d := Le32(PRESET_MAGIC), Le32(PRESET_VERSION), Le32(|p.name|), Le32(|snapshot|);
    var e, f, payload := Le32(Crc(PresetPayload(p))), Le32(0), PresetPayload(p);
    AtWhole(bytes, EncodedPreset(p));
    AtConcat(bytes, 0, a + b + c + d + e + f, payload);
    AtConcat(bytes, 0, a + b + c + d + e, f);
    AtConcat(bytes, 0, a + b + c + d, e);
    AtConcat(bytes, 0, a + b + c, d);
    AtConcat(bytes, 0, a + b, c);
    AtConcat(bytes, 0, a, b);
    AtConcat(bytes, 24, p.id + p.name, snapshot);
    AtConcat(bytes, 24, p.id, p.name);
    ReadU32Spec(bytes, 0, PRESET_MAGIC);
    ReadU32Spec(bytes, 4, PRESET_VERSION);
    ReadU32Spec(bytes, 8, |p.name|);
    ReadU32Spec(bytes, 12, |snapshot|);
    ReadU32Spec(bytes, 16, Crc(payload));
    ReadU32Spec(bytes, 20, 0);
    if |bytes| == PRESET_HEADER_BYTES + |p.name| + |snapshot| {
      AtEnd(bytes, 24, payload);
      AtSlice(bytes, 24, p.id);
      AtSlice(bytes, 40, p.name);
      AtEnd(bytes, 40 + |p.name|, snapshot);
    }
  }

  // A preset's encoding determines the preset.
  lemma PresetInjective(p: Preset, q: Preset)
    requires ValidPreset(p) && ValidPreset(q) && EncodedPreset(p) == EncodedPreset(q)
    ensures p == q
  {
    hide EncodedPreset, Encoded, ReadU32, Crc, ValidSession;
    PresetWords(EncodedPreset(p), p);
    PresetWords(EncodedPreset(p), q);
    EncodedInjective(Embedded(p), Embedded(q));
  }

  ghost predicate DecodablePreset(bytes: seq<Byte>) {
    exists p :: ValidPreset(p) && EncodedPreset(p) == bytes
  }

  // The preset that `bytes` encode, if there is one; there is at most one.
  ghost function PresetOf(bytes: seq<Byte>): (r: Option<Preset>)
    ensures r.Some? ==> ValidPreset(r.value) && EncodedPreset(r.value) == bytes
    ensures r.None? ==> !DecodablePreset(bytes)
  {
    if DecodablePreset(bytes) then
      var p :| ValidPreset(p) && EncodedPreset(p) == bytes;
      Some(p)
    else None
  }

  lemma PresetOfEncoded(p: Preset)
    requires ValidPreset(p)
    ensures PresetOf(EncodedPreset(p)) == Some(p)
  {
    hide EncodedPreset, ValidPreset;
    PresetInjective(p, PresetOf(EncodedPreset(p)).value);
  }

  // Accepts exactly the encodings of valid presets, and returns the preset.
  method DecodePreset(bytes: seq<Byte>) returns (r: Option<Preset>)
    ensures r.Some? ==> ValidPreset(r.value) && EncodedPreset(r.value) == bytes
    ensures forall p :: ValidPreset(p) && EncodedPreset(p) == bytes ==> r == Some(p)
    ensures r == PresetOf(bytes)
  {
    hide EncodedPreset, Encoded, ReadU32, Crc, ValidSlot;
    forall p | ValidPreset(p) && EncodedPreset(p) == bytes
      ensures && |bytes| == PRESET_HEADER_BYTES + |p.name| + |Encoded(Embedded(p))| <= MAX_PRESET_BYTES
              && ReadU32(bytes, 0) == Some(PRESET_MAGIC) && ReadU32(bytes, 4) == Some(PRESET_VERSION)
              && ReadU32(bytes, 8) == Some(|p.name|)
              && ReadU32(bytes, 12) == Some(|Encoded(Embedded(p))|)
              && ReadU32(bytes, 16) == Some(Crc(bytes[24..]))
              && ReadU32(bytes, 20) == Some(0)
              && bytes[24..40] == p.id
              && bytes[40..40 + |p.name|] == p.name
              && bytes[40 + |p.name|..] == Encoded(Embedded(p))
              && |Encoded(Embedded(p))| >= SESSION_HEADER_BYTES
    {
      PresetWords(bytes, p);
      EmbeddedSize(p);
    }
    if |bytes| < PRESET_HEADER_BYTES || |bytes| > MAX_PRESET_BYTES {
      return None;
    }
    var magic, version := ReadU32(bytes, 0), ReadU32(bytes, 4);
    var nameSize, snapshotSize := ReadU32(bytes, 8), ReadU32(bytes, 12);
    var expectedCrc, reserved := ReadU32(bytes, 16), ReadU32(bytes, 20);
    if magic.None? || version.None? || nameSize.None? || snapshotSize.None? ||
       expectedCrc.None? || reserved.None? {
      return None;
    }
    if magic.value != PRESET_MAGIC || version.value != PRESET_VERSION {
      return None;
    }
    if reserved.value != 0 || nameSize.value == 0 || nameSize.value > MAX_NAME_BYTES ||
       snapshotSize.value < SESSION_HEADER_BYTES ||
       nameSize.value + snapshotSize.value != |bytes| - PRESET_HEADER_BYTES {
      return None;
    }
    var crc := ComputeCrc(bytes[24..]);
    if crc != expectedCrc.value {
      return None;
    }
    var id: RackId := bytes[24..40];
    var idOk := RackIdIsNonzero(id);
    if !idOk {
      return None;
    }
    var name := bytes[40..40 + nameSize.value];
    var nul := HasNul(name);
    if nul {
      return None;
    }
    var embedded := DecodeSession(bytes[40 + nameSize.value..]);
    if embedded.None? {
      return None;
    }
    if embedded.value.rackId != id || embedded.value.generation != 1 {
      return None;
    }
    var preset := Preset(id, name, embedded.value.slots);
    assert Embedded(preset) == embedded.value;
    PresetWords(bytes, preset);
    forall p | ValidPreset(p) && EncodedPreset(p) == bytes
      ensures p == preset
    {
      PresetInjective(p, preset);
    }
    return Some(preset);
  }

  lemma PresetParts(p: Preset)
    ensures |EncodedPreset(p)| == 24 + |PresetPayload(p)|
    ensures |PresetPayload(p)| == 16 + |p.name| + |Encoded(Embedded(p))|
    ensures EncodedPreset(p)[..8] == Le32(PRESET_MAGIC) + Le32(PRESET_VERSION)
    ensures EncodedPreset(p)[8..12] == Le32(|p.name|)
    ensures EncodedPreset(p)[12..16] == Le32(|Encoded(Embedded(p))|)
    ensures EncodedPreset(p)[16..20] == Le32(Crc(PresetPayload(p)))
    ensures EncodedPreset(p)[20..24] == Le32(0)
    ensures EncodedPreset(p)[24..] == PresetPayload(p)
  {
    hide Le32, Crc, Encoded;
  }

  lemma CloseTwins(p: Preset, q: Preset, at: nat, width: nat)
    requires ValidPreset(p) && ValidPreset(q)
    requires Agree(EncodedPreset(p), EncodedPreset(q), at, width)
    requires width <= 1 || (24 <= at && width <= 4)
    ensures EncodedPreset(p) == EncodedPreset(q)
  {
    hide Le32, Crc, Encoded, EncodedPreset, PresetPayload, ValidPreset;
    PresetParts(p);
    PresetParts(q);
    PresetSizes(p);
    PresetSizes(q);
    var x, y := EncodedPreset(p), EncodedPreset(q);
    assert x == x[..8] + x[8..12] + x[12..16] + x[16..20] + x[20..24] + x[24..];
    assert y == y[..8] + y[8..12] + y[12..16] + y[16..20] + y[20..24] + y[24..];
    assert x[..8] == y[..8] && x[20..24] == y[20..24];
    if at < 24 {
      assert x[24..] == y[24..];
      if at < 12 {
        assert x[12..16] == y[12..16];
        Le32Injective(|Encoded(Embedded(p))|, |Encoded(Embedded(q))|);
      } else {
        assert x[8..12] == y[8..12];
        Le32Injective(|p.name|, |q.name|);
      }
    } else {
      assert x[8..12] == y[8..12] && x[12..16] == y[12..16] && x[16..20] == y[16..20];
      Le32Injective(Crc(PresetPayload(p)), Crc(PresetPayload(q)));
      assert forall i :: 0 <= i < |x| - 24 ==> x[24..][i] == x[24 + i] && y[24..][i] == y[24 + i];
      BurstDetected(PresetPayload(p), PresetPayload(q), at - 24);
    }
  }

  // One damaged byte anywhere, or four consecutive ones in the checksummed
  // part, leave no valid preset behind.
  lemma PresetDamageDetected(p: Preset, bytes: seq<Byte>, at: nat, width: nat)
    requires ValidPreset(p) && Damaged(EncodedPreset(p), bytes, at, width)
    requires width <= 1 || (24 <= at && width <= 4)
    ensures !DecodablePreset(bytes)
  {
    hide EncodedPreset, ValidPreset;
    if DecodablePreset(bytes) {
      var q :| ValidPreset(q) && EncodedPreset(q) == bytes;
      CloseTwins(p, q, at, width);
    }
  }

  lemma PresetSizes(p: Preset)
    requires ValidPreset(p)
    ensures |p.name| < TWO_32 && |Encoded(Embedded(p))| < TWO_32
  {
    hide Encoded, ValidSession;
    EmbeddedSize(p);
  }
}
