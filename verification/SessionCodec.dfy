/**
The Rack session snapshot of src/rack/rack_session_snapshot.cpp: a 48-byte
header, then one 32-byte header, path, class identity and state blob per slot.
Everything from byte 16 on is covered by the checksum in bytes 12 to 15.
 */
module SessionCodec {
  import opened Wrappers
  import opened Bytes
  import opened Crc32
  import opened StateBlob

  const SESSION_MAGIC: nat := 0x31534e52
  const SESSION_VERSION: nat := 1
  const SESSION_HEADER_BYTES: nat := 48
  const SLOT_HEADER_BYTES: nat := 32
  const MAX_SLOTS: nat := 8
  const MAX_PATH_BYTES: nat := 4096
  const MAX_CLASS_BYTES: nat := 256
  const MAX_SNAPSHOT_BYTES: nat :=
    MAX_SLOTS * (MAX_STATE_BYTES + MAX_PATH_BYTES + MAX_CLASS_BYTES + 128) + 4096

  datatype Health = Ready | Missing | Failed | Suspect | Quarantined

  function HealthCode(h: Health): (n: nat)
    ensures n < 5
  {
    match h
    case Ready => 0
    case Missing => 1
    case Failed => 2
    case Suspect => 3
    case Quarantined => 4
  }

  function HealthOf(n: nat): (r: Option<Health>)
    ensures r.Some? <==> n < 5
    ensures r.Some? ==> HealthCode(r.value) == n
  {
    match n
    case 0 => Some(Ready)
    case 1 => Some(Missing)
    case 2 => Some(Failed)
    case 3 => Some(Suspect)
    case 4 => Some(Quarantined)
    case _ => None
  }

  type RackId = s: seq<Byte> | |s| == 16 witness [0, 0, 0, 0, 0, 0, 0, 0, 0, 0, 0, 0, 0, 0, 0, 0]

  datatype Slot = Slot(
    id: U64, path: seq<Byte>, classId: seq<Byte>, bypass: bool, health: Health, state: PluginState)

  datatype Session = Session(rackId: RackId, generation: U64, slots: seq<Slot>)

  predicate NonZero(id: RackId) {
    exists i :: 0 <= i < 16 && id[i] != 0
  }

  predicate ValidText(s: seq<Byte>, limit: nat) {
    0 < |s| <= limit && 0 !in s
  }

  predicate ValidSlot(s: Slot) {
    && s.id != 0
    && ValidText(s.path, MAX_PATH_BYTES)
    && ValidText(s.classId, MAX_CLASS_BYTES)
    && Encodable(s.state)
  }

  predicate DistinctIds(slots: seq<Slot>) {
    forall i, j :: 0 <= i < j < |slots| ==> slots[i].id != slots[j].id
  }

  predicate ValidSession(s: Session) {
    && NonZero(s.rackId)
    && s.generation != 0
    && |s.slots| <= MAX_SLOTS
    && (forall i :: 0 <= i < |s.slots| ==> ValidSlot(s.slots[i]))
    && DistinctIds(s.slots)
  }

  ghost function SlotHeader(s: Slot): (r: seq<Byte>)
    ensures |r| == SLOT_HEADER_BYTES
  {
    Le64(s.id) + Le32(if s.bypass then 1 else 0) + Le32(HealthCode(s.health))
    + Le32(|s.path|) + Le32(|s.classId|) + Le32(|Blob(s.state)|) + Le32(0)
  }

  ghost function SlotBytes(s: Slot): seq<Byte> {
    SlotHeader(s) + s.path + s.classId + Blob(s.state)
  }

  ghost function Body(slots: seq<Slot>): seq<Byte> {
    if slots == [] then [] else Body(slots[..|slots| - 1]) + SlotBytes(slots[|slots| - 1])
  }

  ghost function Protected(s: Session): seq<Byte> {
    s.rackId + Le64(s.generation) + Le32(|s.slots|) + Le32(0) + Body(s.slots)
  }

  ghost function Encoded(s: Session): seq<Byte> {
    Le32(SESSION_MAGIC) + Le32(SESSION_VERSION) + Le32(|Body(s.slots)|) + Le32(Crc(Protected(s)))
    + Protected(s)
  }

  // Health as the format numbers it.
  lemma HealthNumbers()
    ensures forall n: nat, h :: HealthOf(n) == Some(h) <==> n < 5 && h == [Ready, Missing, Failed, Suspect, Quarantined][n]
    ensures forall h :: HealthOf(HealthCode(h)) == Some(h)
  {
  }

  // The snapshots that can be saved, in the format's own terms.
  lemma SavableExactly(s: Session)
    ensures ValidSession(s)
       <==> && s.rackId != [0, 0, 0, 0, 0, 0, 0, 0, 0, 0, 0, 0, 0, 0, 0, 0] && s.generation > 0 && |s.slots| <= 8
            && (forall i :: 0 <= i < |s.slots| ==>
                  var x := s.slots[i];
                  && x.id > 0 && 1 <= |x.path| <= 4096 && 1 <= |x.classId| <= 256
                  && (forall k :: 0 <= k < |x.path| ==> x.path[k] != 0)
                  && (forall k :: 0 <= k < |x.classId| ==> x.classId[k] != 0)
                  && |x.state.component| + |x.state.controller| <= 16 * 1024 * 1024)
            && (forall i, j :: 0 <= i < j < |s.slots| ==> s.slots[i].id != s.slots[j].id)
  {
    if !NonZero(s.rackId) {
      assert s.rackId == [0, 0, 0, 0, 0, 0, 0, 0, 0, 0, 0, 0, 0, 0, 0, 0];
    }
    forall i | 0 <= i < |s.slots|
      ensures ValidText(s.slots[i].path, 4096) <==>
        1 <= |s.slots[i].path| <= 4096 && forall k :: 0 <= k < |s.slots[i].path| ==> s.slots[i].path[k] != 0
      ensures ValidText(s.slots[i].classId, 256) <==>
        1 <= |s.slots[i].classId| <= 256 && forall k :: 0 <= k < |s.slots[i].classId| ==> s.slots[i].classId[k] != 0
    {
    }
  }

  // ---------------------------------------------------------------- sizes

  const MAX_SLOT_BYTES: nat :=
    SLOT_HEADER_BYTES + MAX_PATH_BYTES + MAX_CLASS_BYTES + HEADER_BYTES + MAX_STATE_BYTES

  lemma SlotSize(s: Slot)
    requires ValidSlot(s)
    ensures |SlotBytes(s)| == SLOT_HEADER_BYTES + |s.path| + |s.classId| + |Blob(s.state)| <= MAX_SLOT_BYTES
    ensures |Blob(s.state)| == HEADER_BYTES + |s.state.component| + |s.state.controller|
  {
  }

  // The size limits of the encoder reject nothing that is valid slot by slot.
  lemma {:induction false} BodySize(slots: seq<Slot>)
    requires forall i :: 0 <= i < |slots| ==> ValidSlot(slots[i])
    ensures |Body(slots)| <= |slots| * MAX_SLOT_BYTES
    ensures |slots| <= MAX_SLOTS ==> |Body(slots)| <= MAX_SNAPSHOT_BYTES - SESSION_HEADER_BYTES
  {
    hide SlotBytes, ValidSlot, Blob;
    if slots != [] {
      BodySize(slots[..|slots| - 1]);
      SlotSize(slots[|slots| - 1]);
    }
  }

  // ---------------------------------------------------------------- encoding

  method HasNul(text: seq<Byte>) returns (found: bool)
    ensures found == (0 in text)
  {
    found := false;
    for i := 0 to |text|
      invariant found == (0 in text[..i])
    {
      if text[i] == 0 {
        found := true;
      }
      assert text[..i + 1] == text[..i] + [text[i]];
    }
    assert text[..|text|] == text;
  }

  method ValidateSlotIdentity(slot: Slot) returns (ok: bool)
    ensures ok == ValidSlot(slot)
  {
    if slot.id == 0 {
      return false;
    }
    var pathNul := HasNul(slot.path);
    if slot.path == [] || |slot.path| > MAX_PATH_BYTES || pathNul {
      return false;
    }
    var classNul := HasNul(slot.classId);
    if slot.classId == [] || |slot.classId| > MAX_CLASS_BYTES || classNul {
      return false;
    }
    return |slot.state.component| + |slot.state.controller| <= MAX_STATE_BYTES;
  }

  method RackIdIsNonzero(id: RackId) returns (r: bool)
    ensures r == NonZero(id)
  {
    r := false;
    for i := 0 to 16
      invariant r == exists k :: 0 <= k < i && id[k] != 0
    {
      if id[i] != 0 {
        r := true;
      }
    }
  }

  method EncodeSlot(slot: Slot) returns (r: seq<Byte>)
    requires ValidSlot(slot)
    ensures r == SlotBytes(slot)
  {
    hide Le32, Le64, Blob, HealthCode;
    var blob := EncodeStateBlob(slot.state);
    var header := Le64(slot.id);
    header := header + Le32(if slot.bypass then 1 else 0);
    header := header + Le32(HealthCode(slot.health));
    header := header + Le32(|slot.path|);
    header := header + Le32(|slot.classId|);
    header := header + Le32(|blob.value|);
    header := header + Le32(0);
    assert header == SlotHeader(slot);
    r := header + slot.path + slot.classId + blob.value;
  }

  // Whether an earlier slot has the identity of slot `index`.
  method RepeatsId(slots: seq<Slot>, index: nat) returns (r: bool)
    requires index < |slots| && DistinctIds(slots[..index])
    ensures !r <==> DistinctIds(slots[..index + 1])
  {
    for prior := 0 to index
      invariant forall i :: 0 <= i < prior ==> slots[i].id != slots[index].id
    {
      if slots[prior].id == slots[index].id {
        assert slots[..index + 1][prior].id == slots[..index + 1][index].id;
        return true;
      }
    }
    r := false;
  }

  lemma DistinctPrefix(slots: seq<Slot>, n: nat)
    requires n <= |slots| && DistinctIds(slots)
    ensures DistinctIds(slots[..n])
  {
  }

  method EncodeBody(slots: seq<Slot>) returns (r: Option<seq<Byte>>)
    requires |slots| <= MAX_SLOTS
    ensures r == if DistinctIds(slots) && forall i :: 0 <= i < |slots| ==> ValidSlot(slots[i])
                 then Some(Body(slots)) else None
  {
    hide SlotBytes, ValidSlot, Blob, Body, DistinctIds;
    var body := [];
    BodyEmpty();
    assert slots[..0] == [] && DistinctIds(slots[..0]) by { NoneRepeat(); }
    for index := 0 to |slots|
      invariant body == Body(slots[..index])
      invariant forall i :: 0 <= i < index ==> ValidSlot(slots[i])
      invariant DistinctIds(slots[..index])
    {
      var slot := slots[index];
      var ok := ValidateSlotIdentity(slot);
      if !ok {
        return None;
      }
      var repeated := RepeatsId(slots, index);
      if repeated {
        if DistinctIds(slots) { DistinctPrefix(slots, index + 1); }
        return None;
      }
      var bytes := EncodeSlot(slot);
      SlotSize(slot);
      BodySize(slots[..index]);
      if |body| > MAX_SNAPSHOT_BYTES - SESSION_HEADER_BYTES - |bytes| {
        assert false;
      }
      BodyMore(slots[..index + 1]);
      assert slots[..index + 1][..index] == slots[..index];
      body := body + bytes;
    }
    assert slots[..|slots|] == slots;
    return Some(body);
  }

  lemma NoneRepeat()
    ensures DistinctIds([])
  {
  }

  method EncodeSession(snapshot: Session) returns (r: Option<seq<Byte>>)
    ensures r == if ValidSession(snapshot) then Some(Encoded(snapshot)) else None
  {
    hide Le32, Le64, Crc, ValidSlot, Body;
    var idOk := RackIdIsNonzero(snapshot.rackId);
    if !idOk || snapshot.generation == 0 || |snapshot.slots| > MAX_SLOTS {
      return None;
    }
    var body := EncodeBody(snapshot.slots);
    if body.None? {
      return None;
    }
    var payload := snapshot.rackId + Le64(snapshot.generation) + Le32(|snapshot.slots|) + Le32(0) + body.value;
    var crc := ComputeCrc(payload);
    var out := Le32(SESSION_MAGIC) + Le32(SESSION_VERSION) + Le32(|body.value|) + Le32(crc);
    return Some(out + payload);
  }

  // ---------------------------------------------------------------- one slot

  // The words in front of a slot.
  datatype Header = Header(id: U64, bypass: bool, health: Health, pathSize: nat, classSize: nat, stateSize: nat)

  ghost function HeaderOf(s: Slot): Header {
    Header(s.id, s.bypass, s.health, |s.path|, |s.classId|, |Blob(s.state)|)
  }

  // What stands in `body` at `offset`, read the way the decoder reads it.
  ghost predicate ReadsHeader(body: seq<Byte>, offset: nat, h: Header) {
    && ReadU64(body, offset) == Some(h.id)
    && ReadU32(body, offset + 8) == Some(if h.bypass then 1 else 0)
    && ReadU32(body, offset + 12) == Some(HealthCode(h.health))
    && ReadU32(body, offset + 16) == Some(h.pathSize)
    && ReadU32(body, offset + 20) == Some(h.classSize)
    && ReadU32(body, offset + 24) == Some(h.stateSize)
    && ReadU32(body, offset + 28) == Some(0)
  }

  ghost predicate Reads(body: seq<Byte>, offset: nat, s: Slot) {
    ReadsHeader(body, offset, HeaderOf(s))
  }

  // An acceptable header with as many bytes behind it as it announces.
  ghost predicate ValidHeader(body: seq<Byte>, offset: nat, h: Header) {
    && h.id != 0
    && 0 < h.pathSize <= MAX_PATH_BYTES && 0 < h.classSize <= MAX_CLASS_BYTES
    && HEADER_BYTES <= h.stateSize <= HEADER_BYTES + MAX_STATE_BYTES
    && offset + SLOT_HEADER_BYTES + h.pathSize + h.classSize + h.stateSize <= |body|
  }

  lemma SlotHeaderWords(body: seq<Byte>, offset: nat, s: Slot)
    requires ValidSlot(s)
    ensures At(body, offset, SlotHeader(s)) <==> Reads(body, offset, s)
  {
    hide Le32, Le64, At, ReadU32, ReadU64, Blob, HealthCode;
    SlotSize(s);
    var id, flags, health := Le64(s.id), Le32(if s.bypass then 1 else 0), Le32(HealthCode(s.health));
    var path, classId, blob := Le32(|s.path|), Le32(|s.classId|), Le32(|Blob(s.state)|);
    AtConcat(body, offset, id + flags + health + path + classId + blob, Le32(0));
    AtConcat(body, offset, id + flags + health + path + classId, blob);
    AtConcat(body, offset, id + flags + health + path, classId);
    AtConcat(body, offset, id + flags + health, path);
    AtConcat(body, offset, id + flags, health);
    AtConcat(body, offset, id, flags);
    ReadU64Spec(body, offset, s.id);
    ReadU32Spec(body, offset + 8, if s.bypass then 1 else 0);
    ReadU32Spec(body, offset + 12, HealthCode(s.health));
    ReadU32Spec(body, offset + 16, |s.path|);
    ReadU32Spec(body, offset + 20, |s.classId|);
    ReadU32Spec(body, offset + 24, |Blob(s.state)|);
    ReadU32Spec(body, offset + 28, 0);
  }

  lemma SlotParts(body: seq<Byte>, offset: nat, s: Slot)
    requires ValidSlot(s)
    ensures At(body, offset, SlotBytes(s))
       <==> && Reads(body, offset, s)
            && At(body, offset + SLOT_HEADER_BYTES, s.path)
            && At(body, offset + SLOT_HEADER_BYTES + |s.path|, s.classId)
            && At(body, offset + SLOT_HEADER_BYTES + |s.path| + |s.classId|, Blob(s.state))
  {
    hide SlotHeader, At, Reads, Blob;
    SlotHeaderWords(body, offset, s);
    AtConcat(body, offset, SlotHeader(s) + s.path + s.classId, Blob(s.state));
    AtConcat(body, offset, SlotHeader(s) + s.path, s.classId);
    AtConcat(body, offset, SlotHeader(s), s.path);
  }

  // At most one valid slot stands at a given place.
  lemma SlotDetermined(body: seq<Byte>, offset: nat, s: Slot, t: Slot)
    requires ValidSlot(s) && ValidSlot(t)
    requires At(body, offset, SlotBytes(s)) && At(body, offset, SlotBytes(t))
    ensures s == t
  {
    hide SlotBytes, ReadU32, ReadU64, Blob;
    SlotParts(body, offset, s);
    SlotParts(body, offset, t);
    HealthDetermined(s.health, t.health);
    BlobInjective(s.state, t.state);
  }

  lemma HealthDetermined(a: Health, b: Health)
    requires HealthCode(a) == HealthCode(b)
    ensures a == b
  {
  }

  ghost predicate PayloadAt(body: seq<Byte>, offset: nat, s: Slot) {
    && At(body, offset, s.path)
    && At(body, offset + |s.path|, s.classId)
    && At(body, offset + |s.path| + |s.classId|, Blob(s.state))
  }

  ghost predicate Sizes(s: Slot, pathSize: nat, classSize: nat, stateSize: nat) {
    |s.path| == pathSize && |s.classId| == classSize && |Blob(s.state)| == stateSize
  }

  method DecodeHeader(body: seq<Byte>, offset: nat) returns (r: Option<Header>)
    requires offset <= |body|
    ensures r.Some? ==> ReadsHeader(body, offset, r.value) && ValidHeader(body, offset, r.value)
    ensures forall h :: ReadsHeader(body, offset, h) && ValidHeader(body, offset, h) ==> r == Some(h)
  {
    hide ReadU32, ReadU64, HealthCode, HealthOf;
    if |body| - offset < SLOT_HEADER_BYTES {
      return None;
    }
    var slotId, flags := ReadU64(body, offset), ReadU32(body, offset + 8);
    var healthValue := ReadU32(body, offset + 12);
    var pathSize, classSize := ReadU32(body, offset + 16), ReadU32(body, offset + 20);
    var stateSize, reserved := ReadU32(body, offset + 24), ReadU32(body, offset + 28);
    if slotId.None? || flags.None? || healthValue.None? || pathSize.None? || classSize.None? ||
       stateSize.None? || reserved.None? {
      return None;
    }
    var at := offset + SLOT_HEADER_BYTES;
    var health := HealthOf(healthValue.value);
    if slotId.value == 0 || flags.value > 1 || health.None? || reserved.value != 0 ||
       pathSize.value == 0 || pathSize.value > MAX_PATH_BYTES ||
       classSize.value == 0 || classSize.value > MAX_CLASS_BYTES ||
       stateSize.value < HEADER_BYTES || stateSize.value > HEADER_BYTES + MAX_STATE_BYTES {
      return None;
    }
    if pathSize.value + classSize.value + stateSize.value > |body| - at {
      return None;
    }
    r := Some(Header(slotId.value, flags.value == 1, health.value, pathSize.value, classSize.value, stateSize.value));
    forall h | ReadsHeader(body, offset, h) && ValidHeader(body, offset, h)
      ensures r == Some(h)
    {
      HealthDetermined(h.health, health.value);
    }
  }

  // The path, class identity and state announced by a slot header.
  method DecodePayload(body: seq<Byte>, offset: nat, pathSize: nat, classSize: nat, stateSize: nat)
    returns (r: Option<(seq<Byte>, seq<Byte>, PluginState)>)
    requires offset + pathSize + classSize + stateSize <= |body|
    ensures r.Some? ==> At(body, offset, r.value.0) && |r.value.0| == pathSize && 0 !in r.value.0
    ensures r.Some? ==> At(body, offset + pathSize, r.value.1) && |r.value.1| == classSize && 0 !in r.value.1
    ensures r.Some? ==> At(body, offset + pathSize + classSize, Blob(r.value.2))
    ensures r.Some? ==> |Blob(r.value.2)| == stateSize && Encodable(r.value.2)
    ensures forall s :: ValidSlot(s) && PayloadAt(body, offset, s) && Sizes(s, pathSize, classSize, stateSize) ==> r.Some?
  {
    hide Blob;
    var at := offset;
    var path := body[at..at + pathSize];
    at := at + pathSize;
    var classId := body[at..at + classSize];
    at := at + classSize;
    var pathNul := HasNul(path);
    var classNul := HasNul(classId);
    if pathNul || classNul {
      return None;
    }
    var state := DecodeStateBlob(body[at..at + stateSize]);
    if state.None? {
      return None;
    }
    return Some((path, classId, state.value));
  }

  // What stands where a valid slot stands.
  lemma SlotStandsAs(body: seq<Byte>, offset: nat, s: Slot)
    requires ValidSlot(s) && At(body, offset, SlotBytes(s))
    ensures ReadsHeader(body, offset, HeaderOf(s)) && ValidHeader(body, offset, HeaderOf(s))
    ensures PayloadAt(body, offset + SLOT_HEADER_BYTES, s)
  {
    hide SlotBytes, ReadsHeader, Blob;
    SlotParts(body, offset, s);
    SlotSize(s);
  }

  // One turn of the decoding loop: accepts exactly the valid slots that stand at `offset`.
  method DecodeSlot(body: seq<Byte>, offset: nat) returns (r: Option<(Slot, nat)>)
    requires offset <= |body|
    ensures r.Some? ==> ValidSlot(r.value.0) && At(body, offset, SlotBytes(r.value.0))
    ensures r.Some? ==> r.value.1 == offset + |SlotBytes(r.value.0)|
    ensures forall s :: ValidSlot(s) && At(body, offset, SlotBytes(s)) ==> r.Some?
  {
    hide SlotBytes, Blob, At, ReadsHeader;
    forall s | ValidSlot(s) && At(body, offset, SlotBytes(s))
      ensures ReadsHeader(body, offset, HeaderOf(s)) && ValidHeader(body, offset, HeaderOf(s))
      ensures PayloadAt(body, offset + SLOT_HEADER_BYTES, s)
    {
      SlotStandsAs(body, offset, s);
    }
    var header := DecodeHeader(body, offset);
    if header.None? {
      return None;
    }
    var h, at := header.value, offset + SLOT_HEADER_BYTES;
    var payload := DecodePayload(body, at, h.pathSize, h.classSize, h.stateSize);
    if payload.None? {
      return None;
    }
    var (path, classId, state) := payload.value;
    var slot := Slot(h.id, path, classId, h.bypass, h.health, state);
    SlotParts(body, offset, slot);
    SlotSize(slot);
    return Some((slot, at + h.pathSize + h.classSize + h.stateSize));
  }

  // ---------------------------------------------------------------- whole snapshots

  lemma BodyMore(slots: seq<Slot>)
    requires slots != []
    ensures Body(slots) == Body(slots[..|slots| - 1]) + SlotBytes(slots[|slots| - 1])
  {
    hide SlotBytes;
  }

  lemma {:induction false} BodyConcat(a: seq<Slot>, b: seq<Slot>)
    ensures Body(a + b) == Body(a) + Body(b)
  {
    hide SlotBytes, Body;
    if b == [] {
      assert a + b == a;
      BodyEmpty();
    } else {
      var c := b[..|b| - 1];
      BodyConcat(a, c);
      BodyMore(b);
      BodyMore(a + b);
      assert (a + b)[..|a + b| - 1] == a + c;
    }
  }

  lemma SlotStands(slots: seq<Slot>, k: nat)
    requires k < |slots|
    ensures At(Body(slots), |Body(slots[..k])|, SlotBytes(slots[k]))
    ensures Body(slots[..k + 1]) == Body(slots[..k]) + SlotBytes(slots[k])
  {
    hide SlotBytes, At;
    var x, y, z := Body(slots[..k]), SlotBytes(slots[k]), Body(slots[k + 1..]);
    assert slots[..k + 1][..k] == slots[..k];
    assert slots == slots[..k + 1] + slots[k + 1..];
    BodyConcat(slots[..k + 1], slots[k + 1..]);
    AtWhole(Body(slots), (x + y) + z);
    AtConcat(Body(slots), 0, x + y, z);
    AtConcat(Body(slots), 0, x, y);
  }

  lemma {:induction false} BodyInjective(a: seq<Slot>, b: seq<Slot>)
    requires |a| == |b| && Body(a) == Body(b)
    requires forall i :: 0 <= i < |a| ==> ValidSlot(a[i]) && ValidSlot(b[i])
    ensures a == b
  {
    hide SlotBytes, ValidSlot;
    if a != [] {
      SlotStands(a, 0);
      SlotStands(b, 0);
      SlotDetermined(Body(a), 0, a[0], b[0]);
      assert a == [a[0]] + a[1..] && b == [b[0]] + b[1..];
      BodyConcat([a[0]], a[1..]);
      BodyConcat([b[0]], b[1..]);
      BodyInjective(a[1..], b[1..]);
    }
  }

  // An encoded snapshot, read back word by word.
  lemma SessionWords(bytes: seq<Byte>, s: Session)
    requires ValidSession(s)
    ensures bytes == Encoded(s)
       <==> && |bytes| == SESSION_HEADER_BYTES + |Body(s.slots)|
            && ReadU32(bytes, 0) == Some(SESSION_MAGIC) && ReadU32(bytes, 4) == Some(SESSION_VERSION)
            && ReadU32(bytes, 8) == Some(|Body(s.slots)|)
            && ReadU32(bytes, 12) == Some(Crc(bytes[16..]))
            && bytes[16..32] == s.rackId
            && ReadU64(bytes, 32) == Some(s.generation)
            && ReadU32(bytes, 40) == Some(|s.slots|) && ReadU32(bytes, 44) == Some(0)
            && bytes[48..] == Body(s.slots)
  {
    hide Le32, Le64, ReadU32, ReadU64, Crc, At, Body, ValidSlot;
    BodySize(s.slots);
    var body := Body(s.slots);
    var a, b, c, d := Le32(SESSION_MAGIC), Le32(SESSION_VERSION), Le32(|body|), Le32(Crc(Protected(s)));
    var e, f, g := Le64(s.generation), Le32(|s.slots|), Le32(0);
    AtWhole(bytes, Encoded(s));
    AtConcat(bytes, 0, a + b + c + d, Protected(s));
    AtConcat(bytes, 0, a + b + c, d);
    AtConcat(bytes, 0, a + b, c);
    AtConcat(bytes, 0, a, b);
    AtConcat(bytes, 16, s.rackId + e + f + g, body);
    AtConcat(bytes, 16, s.rackId + e + f, g);
    AtConcat(bytes, 16, s.rackId + e, f);
    AtConcat(bytes, 16, s.rackId, e);
    ReadU32Spec(bytes, 0, SESSION_MAGIC);
    ReadU32Spec(bytes, 4, SESSION_VERSION);
    ReadU32Spec(bytes, 8, |body|);
    ReadU32Spec(bytes, 12, Crc(Protected(s)));
    ReadU64Spec(bytes, 32, s.generation);
    ReadU32Spec(bytes, 40, |s.slots|);
    ReadU32Spec(bytes, 44, 0);
    if |bytes| == SESSION_HEADER_BYTES + |body| {
      AtEnd(bytes, 16, Protected(s));
      AtEnd(bytes, 48, body);
      AtSlice(bytes, 16, s.rackId);
    }
  }

  lemma AtSlice(bytes: seq<Byte>, offset: nat, part: seq<Byte>)
    requires offset + |part| <= |bytes|
    ensures At(bytes, offset, part) <==> bytes[offset..offset + |part|] == part
  {
  }

  // A snapshot's encoding determines the snapshot.
  lemma EncodedInjective(s: Session, t: Session)
    requires ValidSession(s) && ValidSession(t) && Encoded(s) == Encoded(t)
    ensures s == t
  {
    hide Encoded, ReadU32, ReadU64, Crc, Body, ValidSlot;
    SessionWords(Encoded(s), s);
    SessionWords(Encoded(s), t);
    BodyInjective(s.slots, t.slots);
  }

  method SlotIdIsUnique(slots: seq<Slot>, id: U64) returns (r: bool)
    ensures r <==> forall i :: 0 <= i < |slots| ==> slots[i].id != id
  {
    for i := 0 to |slots|
      invariant forall k :: 0 <= k < i ==> slots[k].id != id
    {
      if slots[i].id == id {
        return false;
      }
    }
    return true;
  }

  ghost predicate Fills(body: seq<Byte>, count: nat, s: seq<Slot>) {
    && |s| == count
    && Body(s) == body
    && DistinctIds(s)
    && forall i :: 0 <= i < count ==> ValidSlot(s[i])
  }

  lemma FillsNext(body: seq<Byte>, count: nat, s: seq<Slot>, k: nat)
    requires Fills(body, count, s) && k < count
    ensures ValidSlot(s[k]) && At(body, |Body(s[..k])|, SlotBytes(s[k]))
    ensures forall i :: 0 <= i < k ==> s[i].id != s[k].id
    ensures s[..k + 1] == s[..k] + [s[k]]
  {
    hide SlotBytes, At, ValidSlot, Body;
    SlotStands(s, k);
    FillsWhole(body, count, s);
  }

  // The slots of `body`, when it is the encoding of `count` valid slots with distinct ids.
  method DecodeBody(body: seq<Byte>, count: nat) returns (r: Option<seq<Slot>>)
    ensures r.Some? ==> Fills(body, count, r.value)
    ensures forall s :: Fills(body, count, s) ==> r.Some?
  {
    hide SlotBytes, ValidSlot, At, Fills, Body;
    var offset := 0;
    var slots: seq<Slot> := [];
    assert Body(slots) == [] && body[..offset] == [] by { BodyEmpty(); }
    forall s: seq<Slot> | Fills(body, count, s)
      ensures |s| == count && Body(s) == body
    {
      FillsWhole(body, count, s);
    }
    for index := 0 to count
      invariant |slots| == index && offset == |Body(slots)| <= |body| && body[..offset] == Body(slots)
      invariant DistinctIds(slots) && forall i :: 0 <= i < index ==> ValidSlot(slots[i])
      invariant forall s: seq<Slot> :: Fills(body, count, s) ==> |s| == count && s[..index] == slots
    {
      forall s: seq<Slot> | Fills(body, count, s)
        ensures ValidSlot(s[index]) && At(body, offset, SlotBytes(s[index]))
        ensures forall i :: 0 <= i < index ==> slots[i].id != s[index].id
        ensures s[..index + 1] == slots + [s[index]]
      {
        FillsNext(body, count, s, index);
      }
      var next := DecodeSlot(body, offset);
      if next.None? {
        return None;
      }
      var (slot, end) := next.value;
      forall s: seq<Slot> | Fills(body, count, s)
        ensures s[index] == slot
      {
        SlotDetermined(body, offset, s[index], slot);
      }
      var unique := SlotIdIsUnique(slots, slot.id);
      if !unique {
        return None;
      }
      BodyGrows(body, slots, slot);
      offset := end;
      slots := slots + [slot];
    }
    forall s: seq<Slot> | Fills(body, count, s)
      ensures slots == s
    {
      assert s[..count] == s;
    }
    if offset != |body| {
      return None;
    }
    assert body[..offset] == body;
    FillsBy(body, count, slots);
    return Some(slots);
  }

  lemma BodyEmpty()
    ensures Body([]) == []
  {
  }

  lemma BodyGrows(body: seq<Byte>, slots: seq<Slot>, slot: Slot)
    requires |Body(slots)| <= |body| && body[..|Body(slots)|] == Body(slots)
    requires At(body, |Body(slots)|, SlotBytes(slot))
    ensures Body(slots + [slot]) == Body(slots) + SlotBytes(slot)
    ensures |Body(slots + [slot])| <= |body|
    ensures body[..|Body(slots + [slot])|] == Body(slots + [slot])
  {
    hide SlotBytes;
    assert (slots + [slot])[..|slots|] == slots;
  }

  lemma FillsWhole(body: seq<Byte>, count: nat, s: seq<Slot>)
    requires Fills(body, count, s)
    ensures |s| == count && Body(s) == body
  {
  }

  lemma FillsBy(body: seq<Byte>, count: nat, s: seq<Slot>)
    requires |s| == count && Body(s) == body && DistinctIds(s)
    requires forall i :: 0 <= i < count ==> ValidSlot(s[i])
    ensures Fills(body, count, s)
  {
  }

  ghost predicate Decodable(bytes: seq<Byte>) {
    exists s :: ValidSession(s) && Encoded(s) == bytes
  }

  // The snapshot that `bytes` encode, if there is one; there is at most one.
  ghost function SessionOf(bytes: seq<Byte>): (r: Option<Session>)
    ensures r.Some? ==> ValidSession(r.value) && Encoded(r.value) == bytes
    ensures r.None? ==> !Decodable(bytes)
  {
    if Decodable(bytes) then
      var s :| ValidSession(s) && Encoded(s) == bytes;
      Some(s)
    else None
  }

  lemma SessionOfEncoded(s: Session)
    requires ValidSession(s)
    ensures SessionOf(Encoded(s)) == Some(s)
  {
    hide Encoded, ValidSession;
    EncodedInjective(s, SessionOf(Encoded(s)).value);
  }

  // Accepts exactly the encodings of valid snapshots, and returns the snapshot.
  method DecodeSession(bytes: seq<Byte>) returns (r: Option<Session>)
    ensures r.Some? ==> ValidSession(r.value) && Encoded(r.value) == bytes
    ensures forall s :: ValidSession(s) && Encoded(s) == bytes ==> r == Some(s)
    ensures r == SessionOf(bytes)
  {
    hide Encoded, ReadU32, ReadU64, Crc, Body, ValidSlot;
    forall s | ValidSession(s) && Encoded(s) == bytes
      ensures && |bytes| == SESSION_HEADER_BYTES + |Body(s.slots)| <= MAX_SNAPSHOT_BYTES
              && ReadU32(bytes, 0) == Some(SESSION_MAGIC) && ReadU32(bytes, 4) == Some(SESSION_VERSION)
              && ReadU32(bytes, 8) == Some(|Body(s.slots)|)
              && ReadU32(bytes, 12) == Some(Crc(bytes[16..]))
              && bytes[16..32] == s.rackId
              && ReadU64(bytes, 32) == Some(s.generation)
              && ReadU32(bytes, 40) == Some(|s.slots|) && ReadU32(bytes, 44) == Some(0)
              && bytes[48..] == Body(s.slots)
    {
      SessionWords(bytes, s);
      BodySize(s.slots);
    }
    if |bytes| < SESSION_HEADER_BYTES || |bytes| > MAX_SNAPSHOT_BYTES {
      return None;
    }
    var magic, version := ReadU32(bytes, 0), ReadU32(bytes, 4);
    var bodySize, expectedCrc := ReadU32(bytes, 8), ReadU32(bytes, 12);
    var generation := ReadU64(bytes, 32);
    var slotCount, reserved := ReadU32(bytes, 40), ReadU32(bytes, 44);
    if magic.None? || version.None? || bodySize.None? || expectedCrc.None? ||
       generation.None? || slotCount.None? || reserved.None? {
      return None;
    }
    if magic.value != SESSION_MAGIC || version.value != SESSION_VERSION {
      return None;
    }
    if generation.value == 0 || slotCount.value > MAX_SLOTS || reserved.value != 0 ||
       bodySize.value != |bytes| - SESSION_HEADER_BYTES {
      return None;
    }
    var crc := ComputeCrc(bytes[16..]);
    if crc != expectedCrc.value {
      return None;
    }
    var rackId: RackId := bytes[16..32];
    var idOk := RackIdIsNonzero(rackId);
    if !idOk {
      return None;
    }
    var body := bytes[SESSION_HEADER_BYTES..];
    assert forall s :: ValidSession(s) && Encoded(s) == bytes ==> Fills(body, slotCount.value, s.slots);
    var slots := DecodeBody(body, slotCount.value);
    if slots.None? {
      return None;
    }
    var session := Session(rackId, generation.value, slots.value);
    SessionWords(bytes, session);
    forall s | ValidSession(s) && Encoded(s) == bytes
      ensures s == session
    {
      EncodedInjective(s, session);
    }
    return Some(session);
  }

  // ---------------------------------------------------------------- corruption

  ghost predicate Agree(s: seq<Byte>, t: seq<Byte>, at: nat, width: nat) {
    |s| == |t| && forall i :: 0 <= i < |s| && !(at <= i < at + width) ==> s[i] == t[i]
  }

  // `t` is a damaged copy of `s`: same length, equal outside `width` consecutive bytes.
  ghost predicate Damaged(s: seq<Byte>, t: seq<Byte>, at: nat, width: nat) {
    s != t && Agree(s, t, at, width)
  }

  lemma EncodedParts(s: Session)
    ensures |Encoded(s)| == 16 + |Protected(s)| && |Protected(s)| == 32 + |Body(s.slots)|
    ensures Encoded(s)[..12] == Le32(SESSION_MAGIC) + Le32(SESSION_VERSION) + Le32(|Body(s.slots)|)
    ensures Encoded(s)[12..16] == Le32(Crc(Protected(s)))
    ensures Encoded(s)[16..] == Protected(s)
  {
    hide Le32, Crc, Body;
  }

  lemma CloseTwins(s: Session, t: Session, at: nat, width: nat)
    requires ValidSession(s) && ValidSession(t) && Agree(Encoded(s), Encoded(t), at, width)
    requires width <= 1 || (16 <= at && width <= 4)
    ensures Encoded(s) == Encoded(t)
  {
    hide Le32, Crc, Body, Encoded, Protected, ValidSession;
    EncodedParts(s);
    EncodedParts(t);
    var x, y := Encoded(s), Encoded(t);
    assert x == x[..12] + x[12..16] + x[16..];
    assert y == y[..12] + y[12..16] + y[16..];
    if at < 16 {
      assert x[16..] == y[16..];
    } else {
      assert x[12..16] == y[12..16];
      Le32Injective(Crc(Protected(s)), Crc(Protected(t)));
      assert forall i :: 0 <= i < |x| - 16 ==> x[16..][i] == x[16 + i] && y[16..][i] == y[16 + i];
      BurstDetected(Protected(s), Protected(t), at - 16);
    }
  }

  // No valid snapshot encodes to a copy with one damaged byte, or with up to
  // four consecutive damaged bytes in the checksummed part.
  lemma DamageDetected(s: Session, bytes: seq<Byte>, at: nat, width: nat)
    requires ValidSession(s) && Damaged(Encoded(s), bytes, at, width)
    requires width <= 1 || (16 <= at && width <= 4)
    ensures !Decodable(bytes)
  {
    hide Encoded, ValidSession;
    if Decodable(bytes) {
      var t :| ValidSession(t) && Encoded(t) == bytes;
      CloseTwins(s, t, at, width);
    }
  }
}
