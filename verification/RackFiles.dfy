/**
The save protocol applied to its two file kinds: the working session, and one
preset file whose content must carry the id of its library key.
 */
module RackFiles {
  import opened Wrappers
  import opened Bytes
  import opened SessionCodec
  import opened PresetCodec
  import opened SnapshotStore

  ghost function SessionFile(): Codec<Session> {
    Codec(s => ValidSession(s), s => Encoded(s), b => SessionOf(b))
  }

  ghost function ExpectedPreset(id: RackId, bytes: seq<Byte>): Option<Preset> {
    var p := PresetOf(bytes);
    if p.Some? && p.value.id == id then p else None
  }

  ghost function PresetFile(id: RackId): Codec<Preset> {
    Codec(p => ValidPreset(p) && p.id == id, p => EncodedPreset(p), b => ExpectedPreset(id, b))
  }

  lemma SessionFileFaithful()
    ensures Faithful(SessionFile())
  {
    hide Encoded, ValidSession, SessionOf;
    forall s | ValidSession(s)
      ensures SessionOf(Encoded(s)) == Some(s)
    {
      SessionOfEncoded(s);
    }
  }

  lemma PresetFileFaithful(id: RackId)
    ensures Faithful(PresetFile(id))
  {
    hide EncodedPreset, ValidPreset, PresetOf;
    forall p | ValidPreset(p) && p.id == id
      ensures ExpectedPreset(id, EncodedPreset(p)) == Some(p)
    {
      PresetOfEncoded(p);
    }
  }

  // After any run of session saves, a load returns the last committed session.
  lemma SessionSavesAreAtomic(leftovers: Disk, es: seq<Event<Session>>, previousReads: bool)
    requires Runs(SessionFile(), Initial(leftovers), es)
    ensures var t := End(SessionFile(), Initial(leftovers), es);
      !t.damaged ==>
        Load(SessionFile(), t.disk, true, previousReads)
        == if t.committed == [] then None else Some(t.committed[|t.committed| - 1])
  {
    SessionFileFaithful();
    LoadIsLastCommit(SessionFile(), leftovers, es, previousReads);
  }

  lemma PresetSavesAreAtomic(id: RackId, leftovers: Disk, es: seq<Event<Preset>>, previousReads: bool)
    requires Runs(PresetFile(id), Initial(leftovers), es)
    ensures var t := End(PresetFile(id), Initial(leftovers), es);
      !t.damaged ==>
        Load(PresetFile(id), t.disk, true, previousReads)
        == if t.committed == [] then None else Some(t.committed[|t.committed| - 1])
  {
    PresetFileFaithful(id);
    LoadIsLastCommit(PresetFile(id), leftovers, es, previousReads);
  }

  // Flipping one byte of the stored session, or up to four consecutive bytes
  // behind the checksum, is damage every load notices: after two undamaged
  // commits the load falls back to one of them.
  lemma FlippedBytesFallBack(leftovers: Disk, es: seq<Event<Session>>, bytes: seq<Byte>, at: nat, width: nat)
    requires Runs(SessionFile(), Initial(leftovers), es)
    requires var t := End(SessionFile(), Initial(leftovers), es);
      && !t.everDamaged && !t.previousDamaged && |t.committed| >= 2
      && Damaged(Encoded(t.committed[|t.committed| - 1]), bytes, at, width)
    requires width <= 1 || (16 <= at && width <= 4)
    ensures var t := End(SessionFile(), Initial(leftovers), es);
      var n := |t.committed|;
      Load(SessionFile(), t.disk[Primary := bytes], true, true)
      in {Some(t.committed[n - 1]), Some(t.committed[n - 2])}
  {
    hide Encoded, ValidSession, Damaged, SessionOf;
    SessionFileFaithful();
    InvRun(SessionFile(), Initial(leftovers), es);
    var t := End(SessionFile(), Initial(leftovers), es);
    DamageDetected(t.committed[|t.committed| - 1], bytes, at, width);
    SessionOfDamaged(bytes);
    PreviousSurvives(SessionFile(), leftovers, es, Some(bytes));
  }

  lemma SessionOfDamaged(bytes: seq<Byte>)
    requires !Decodable(bytes)
    ensures SessionOf(bytes) == None
  {
    hide Encoded, ValidSession;
  }
}
