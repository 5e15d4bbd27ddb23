/**
The write-temp, rotate, replace protocol shared by write_rack_session_snapshot_atomic
and write_rack_preset_atomic, and the loader that falls back to `.previous`.

One step per file operation.  A crash may fall between any two of them, or in
the middle of a write; deletes, writes, renames and reads may fail; temporary
files may be left torn; and at any moment the primary or the rotation copy may
be lost or made undecodable.
 */
module SnapshotStore {
  import opened Wrappers
  import opened Bytes

  datatype Path = Primary | Temp | Previous | PreviousTemp

  type Disk = map<Path, seq<Byte>>

  // What a reader accepts: the decoder of one file kind.
  datatype Codec<!T> = Codec(valid: T -> bool, enc: T -> seq<Byte>, dec: seq<Byte> -> Option<T>)

  ghost predicate Faithful<T(!new)>(c: Codec<T>) {
    forall s :: c.valid(s) ==> c.dec(c.enc(s)) == Some(s)
  }

  // Where the saver stands; `snapshot` is the candidate being saved.
  datatype Pc<T> =
    | Idle
    | DeletingTemp(snapshot: T)
    | DeletingPreviousTemp(snapshot: T)
    | ReadingCurrent(snapshot: T)
    | WritingPreviousTemp(snapshot: T, current: seq<Byte>)
    | Rotating(snapshot: T)
    | WritingTemp(snapshot: T)
    | ReadingTemp(snapshot: T)
    | Replacing(snapshot: T)
    | ReadingBack(snapshot: T)

  // `committed` lists the snapshots whose final rename completed, `damaged`
  // says the primary was harmed since, `everDamaged` that it ever was, `rotated`
  // that a rotation ever completed, `previousDamaged` that the copy was harmed
  // since the last, `reported` is the last value returned.
  datatype State<T> = State(
    disk: Disk, pc: Pc<T>, committed: seq<T>,
    damaged: bool, everDamaged: bool, previousDamaged: bool, rotated: bool, reported: Option<bool>)

  datatype Event<T> =
    | Begin(wanted: T)
    | Deleted(ok: bool)
    | Read(readable: bool)
    | Wrote(ok: bool, left: Option<seq<Byte>>)
    | Renamed(ok: bool)
    | Crash(torn: Option<seq<Byte>>)
    | Damage(file: Path, content: Option<seq<Byte>>)

  ghost function Put(d: Disk, p: Path, content: Option<seq<Byte>>): Disk {
    if content.Some? then d[p := content.value] else d - {p}
  }

  ghost function Initial<T>(leftovers: Disk): State<T> {
    State(leftovers - {Primary, Previous}, Idle, [], false, false, false, false, None)
  }

  ghost predicate Enabled<T>(c: Codec<T>, s: State<T>, e: Event<T>) {
    match e
    case Begin(_) => s.pc.Idle?
    case Deleted(_) => s.pc.DeletingTemp? || s.pc.DeletingPreviousTemp?
    case Read(_) => s.pc.ReadingCurrent? || s.pc.ReadingTemp? || s.pc.ReadingBack?
    // A flush that succeeds on the rotation copy has written it; nothing re-reads that file.
    case Wrote(ok, left) => s.pc.WritingTemp? || (s.pc.WritingPreviousTemp? && (ok ==> left == Some(s.pc.current)))
    case Renamed(_) => s.pc.Rotating? || s.pc.Replacing?
    case Crash(_) => true
    // Damage leaves bytes no decoder accepts, or no file.
    case Damage(file, content) =>
      (file.Primary? || file.Previous?) && file in s.disk && (content.Some? ==> c.dec(content.value) == None)
  }

  // What the saver does once it has looked at the current primary.
  ghost function AfterCurrent<T>(c: Codec<T>, d: Disk, x: T, readable: bool): Pc<T> {
    if Primary !in d then WritingTemp(x)
    else if !readable then Idle
    else if c.dec(d[Primary]).Some? then WritingPreviousTemp(x, d[Primary])
    else WritingTemp(x)
  }

  // A file read back holds the candidate's bytes, and they decode.
  ghost predicate ReadsBack<T>(c: Codec<T>, d: Disk, p: Path, x: T, readable: bool) {
    readable && p in d && d[p] == c.enc(x) && c.dec(d[p]).Some?
  }

  ghost function AfterRead<T>(c: Codec<T>, s: State<T>, readable: bool): State<T>
    requires s.pc.ReadingCurrent? || s.pc.ReadingTemp? || s.pc.ReadingBack?
  {
    match s.pc
    case ReadingCurrent(x) =>
      s.(pc := AfterCurrent(c, s.disk, x, readable),
         reported := if AfterCurrent(c, s.disk, x, readable).Idle? then Some(false) else s.reported)
    case ReadingTemp(x) =>
      s.(pc := if ReadsBack(c, s.disk, Temp, x, readable) then Replacing(x) else Idle,
         disk := if ReadsBack(c, s.disk, Temp, x, readable) then s.disk else s.disk - {Temp},
         reported := if ReadsBack(c, s.disk, Temp, x, readable) then s.reported else Some(false))
    case ReadingBack(x) =>
      s.(pc := Idle, reported := Some(ReadsBack(c, s.disk, Primary, x, readable)))
  }

  ghost function AfterWrite<T>(s: State<T>, ok: bool, left: Option<seq<Byte>>): State<T>
    requires s.pc.WritingTemp? || s.pc.WritingPreviousTemp?
  {
    match s.pc
    case WritingPreviousTemp(x, _) =>
      s.(disk := Put(s.disk, PreviousTemp, left), pc := if ok then Rotating(x) else Idle,
         reported := if ok then s.reported else Some(false))
    case WritingTemp(x) =>
      s.(disk := Put(s.disk, Temp, left), pc := if ok then ReadingTemp(x) else Idle,
         reported := if ok then s.reported else Some(false))
  }

  // A renamed file replaces its target; after a failed rename the source is deleted.
  ghost function Moved(d: Disk, source: Path, target: Path, ok: bool): Disk {
    if ok && source in d then d[target := d[source]] - {source} else d - {source}
  }

  ghost function AfterRename<T>(s: State<T>, ok: bool): State<T>
    requires s.pc.Rotating? || s.pc.Replacing?
  {
    match s.pc
    case Rotating(x) =>
      s.(disk := Moved(s.disk, PreviousTemp, Previous, ok),
         pc := if ok && PreviousTemp in s.disk then WritingTemp(x) else Idle,
         rotated := s.rotated || (ok && PreviousTemp in s.disk),
         previousDamaged := s.previousDamaged && !(ok && PreviousTemp in s.disk),
         reported := if ok && PreviousTemp in s.disk then s.reported else Some(false))
    case Replacing(x) =>
      s.(disk := Moved(s.disk, Temp, Primary, ok),
         pc := if ok && Temp in s.disk then ReadingBack(x) else Idle,
         committed := if ok && Temp in s.disk then s.committed + [x] else s.committed,
         damaged := s.damaged && !(ok && Temp in s.disk),
         reported := if ok && Temp in s.disk then s.reported else Some(false))
  }

  // A crash in the middle of a write leaves anything in the file written.
  ghost function Torn<T>(s: State<T>, torn: Option<seq<Byte>>): Disk {
    if s.pc.WritingTemp? then Put(s.disk, Temp, torn)
    else if s.pc.WritingPreviousTemp? then Put(s.disk, PreviousTemp, torn)
    else s.disk
  }

  ghost function Apply<T>(c: Codec<T>, s: State<T>, e: Event<T>): State<T>
    requires Enabled(c, s, e)
  {
    match e
    case Begin(x) =>
      s.(pc := if c.valid(x) then DeletingTemp(x) else Idle, reported := if c.valid(x) then None else Some(false))
    case Deleted(ok) =>
      s.(pc := if s.pc.DeletingTemp? then DeletingPreviousTemp(s.pc.snapshot) else ReadingCurrent(s.pc.snapshot),
         disk := if !ok then s.disk else if s.pc.DeletingTemp? then s.disk - {Temp} else s.disk - {PreviousTemp})
    case Read(readable) => AfterRead(c, s, readable)
    case Wrote(ok, left) => AfterWrite(s, ok, left)
    case Renamed(ok) => AfterRename(s, ok)
    case Crash(torn) => s.(disk := Torn(s, torn), pc := Idle, reported := None)
    case Damage(file, content) =>
      s.(disk := Put(s.disk, file, content), damaged := s.damaged || file.Primary?,
         everDamaged := s.everDamaged || file.Primary?, previousDamaged := s.previousDamaged || file.Previous?)
  }

  // The events `es` can happen one after the other, from `s`.
  ghost predicate Runs<T>(c: Codec<T>, s: State<T>, es: seq<Event<T>>)
    decreases |es|
  {
    es == [] || (Enabled(c, s, es[0]) && Runs(c, Apply(c, s, es[0]), es[1..]))
  }

  ghost function End<T>(c: Codec<T>, s: State<T>, es: seq<Event<T>>): State<T>
    requires Runs(c, s, es)
    decreases |es|
  {
    if es == [] then s else End(c, Apply(c, s, es[0]), es[1..])
  }

  // The loader: the primary if it reads and decodes, otherwise `.previous`.
  ghost function Load<T>(c: Codec<T>, d: Disk, primaryReads: bool, previousReads: bool): Option<T> {
    if primaryReads && Primary in d && c.dec(d[Primary]).Some? then c.dec(d[Primary])
    else if previousReads && Previous in d then c.dec(d[Previous])
    else None
  }

  // ---------------------------------------------------------------- the invariant

  // `bytes` encode the committed snapshot at index k.
  ghost predicate Encodes<T>(c: Codec<T>, s: State<T>, bytes: seq<Byte>, k: int) {
    0 <= k < |s.committed| && bytes == c.enc(s.committed[k])
  }

  // Index of the oldest commit a rotation copy may hold: without damage, the
  // one before the last.
  ghost function Oldest<T>(s: State<T>): int {
    if s.everDamaged then 0 else |s.committed| - 2
  }

  ghost predicate Past<T>(c: Codec<T>, s: State<T>, bytes: seq<Byte>) {
    exists k :: k >= Oldest(s) && Encodes(c, s, bytes, k)
  }

  ghost predicate PrimaryOk<T>(c: Codec<T>, s: State<T>) {
    if s.damaged then Primary in s.disk ==> c.dec(s.disk[Primary]) == None
    else if s.committed == [] then Primary !in s.disk
    else Primary in s.disk && s.disk[Primary] == c.enc(s.committed[|s.committed| - 1])
  }

  ghost predicate PreviousOk<T>(c: Codec<T>, s: State<T>) {
    && (s.previousDamaged ==> s.rotated && (Previous in s.disk ==> c.dec(s.disk[Previous]) == None))
    && (!s.previousDamaged ==>
          (Previous in s.disk ==> Past(c, s, s.disk[Previous])) && (Previous in s.disk <==> s.rotated))
    && (|s.committed| >= 2 && !s.everDamaged ==> s.rotated)
  }

  // A save that found a commit in place has rotated it before it writes.
  ghost predicate Rotated<T>(c: Codec<T>, s: State<T>) {
    |s.committed| >= 1 && !s.everDamaged ==>
      && s.rotated
      && (!s.previousDamaged ==> Previous in s.disk && Encodes(c, s, s.disk[Previous], |s.committed| - 1))
  }

  ghost predicate PcOk<T>(c: Codec<T>, s: State<T>) {
    match s.pc
    case Idle => true
    case DeletingTemp(x) => c.valid(x)
    case DeletingPreviousTemp(x) => c.valid(x)
    case ReadingCurrent(x) => c.valid(x)
    case WritingPreviousTemp(x, current) => c.valid(x) && Encodes(c, s, current, |s.committed| - 1)
    case Rotating(x) =>
      && c.valid(x)
      && PreviousTemp in s.disk
      && Encodes(c, s, s.disk[PreviousTemp], |s.committed| - 1)
    case WritingTemp(x) => c.valid(x) && Rotated(c, s)
    case ReadingTemp(x) => c.valid(x) && Rotated(c, s)
    case Replacing(x) => c.valid(x) && Rotated(c, s) && Temp in s.disk && s.disk[Temp] == c.enc(x)
    case ReadingBack(x) => s.committed != [] && s.committed[|s.committed| - 1] == x
  }

  ghost predicate Inv<T>(c: Codec<T>, s: State<T>) {
    && (forall k :: 0 <= k < |s.committed| ==> c.valid(s.committed[k]))
    && (s.damaged ==> s.everDamaged)
    && PrimaryOk(c, s)
    && PreviousOk(c, s)
    && PcOk(c, s)
  }

  // A file that held a recent enough commit still does when the history grows
  // by `more`, provided the rotation that precedes a replace has happened.
  lemma PastKept<T>(c: Codec<T>, s: State<T>, t: State<T>, bytes: seq<Byte>)
    requires Past(c, s, bytes) && s.committed <= t.committed && (s.everDamaged ==> t.everDamaged)
    requires |t.committed| > |s.committed| && !t.everDamaged ==>
      |t.committed| == |s.committed| + 1 && Encodes(c, s, bytes, |s.committed| - 1)
    ensures Past(c, t, bytes)
  {
    var k :| k >= Oldest(s) && Encodes(c, s, bytes, k);
    assert Encodes(c, t, bytes, k);
    if |t.committed| > |s.committed| && !t.everDamaged {
      assert Encodes(c, t, bytes, |s.committed| - 1);
    }
  }

  lemma PreviousKept<T>(c: Codec<T>, s: State<T>, t: State<T>)
    requires PreviousOk(c, s) && s.committed == t.committed && s.rotated == t.rotated
    requires s.previousDamaged == t.previousDamaged
    requires s.everDamaged ==> t.everDamaged
    requires Previous in s.disk <==> Previous in t.disk
    requires Previous in s.disk ==> s.disk[Previous] == t.disk[Previous]
    ensures PreviousOk(c, t)
  {
    if Previous in s.disk && !s.previousDamaged {
      PastKept(c, s, t, s.disk[Previous]);
    }
  }

  lemma InvRotate<T(!new)>(c: Codec<T>, s: State<T>, ok: bool)
    requires Faithful(c) && Inv(c, s) && s.pc.Rotating?
    ensures Inv(c, AfterRename(s, ok))
  {
    var t := AfterRename(s, ok);
    if ok {
      assert Encodes(c, t, t.disk[Previous], |t.committed| - 1);
    } else {
      PreviousKept(c, s, t);
    }
  }

  lemma InvReplace<T(!new)>(c: Codec<T>, s: State<T>, ok: bool)
    requires Faithful(c) && Inv(c, s) && s.pc.Replacing?
    ensures Inv(c, AfterRename(s, ok))
  {
    if Previous in s.disk && !s.previousDamaged {
      PastKept(c, s, AfterRename(s, ok), s.disk[Previous]);
    }
  }

  // The final file and the history stay as they are.
  ghost predicate PrimaryFrame<T>(s: State<T>, t: State<T>) {
    && s.committed == t.committed && s.damaged == t.damaged && s.everDamaged == t.everDamaged
    && (Primary in s.disk <==> Primary in t.disk)
    && (Primary in s.disk ==> s.disk[Primary] == t.disk[Primary])
  }

  lemma PrimaryKept<T>(c: Codec<T>, s: State<T>, t: State<T>)
    requires PrimaryOk(c, s) && PrimaryFrame(s, t)
    ensures PrimaryOk(c, t)
  {
  }

  // So do the rotation copy and what is known of it.
  ghost predicate PreviousFrame<T>(s: State<T>, t: State<T>) {
    && s.rotated == t.rotated && s.previousDamaged == t.previousDamaged
    && (Previous in s.disk <==> Previous in t.disk)
    && (Previous in s.disk ==> s.disk[Previous] == t.disk[Previous])
  }

  lemma RotatedKept<T>(c: Codec<T>, s: State<T>, t: State<T>)
    requires Rotated(c, s) && PrimaryFrame(s, t) && PreviousFrame(s, t)
    ensures Rotated(c, t)
  {
  }

  lemma ReadFrame<T>(c: Codec<T>, s: State<T>, readable: bool)
    requires s.pc.ReadingCurrent? || s.pc.ReadingTemp? || s.pc.ReadingBack?
    ensures PrimaryFrame(s, AfterRead(c, s, readable)) && PreviousFrame(s, AfterRead(c, s, readable))
  {
  }

  // A primary that decodes is the last commit; one that does not is absent or damaged.
  lemma CurrentPc<T(!new)>(c: Codec<T>, s: State<T>, readable: bool)
    requires Faithful(c) && Inv(c, s) && s.pc.ReadingCurrent?
    ensures PcOk(c, AfterRead(c, s, readable))
  {
    hide PreviousOk;
    var t := AfterRead(c, s, readable);
    if t.pc.WritingPreviousTemp? {
      assert Encodes(c, t, s.disk[Primary], |s.committed| - 1);
    } else if t.pc.WritingTemp? {
      assert s.committed != [] ==> s.damaged;
    }
  }

  lemma InvRead<T(!new)>(c: Codec<T>, s: State<T>, readable: bool)
    requires Faithful(c) && Inv(c, s) && Enabled(c, s, Read(readable))
    ensures Inv(c, Apply(c, s, Read(readable)))
  {
    hide PreviousOk, PrimaryOk, Rotated, Encodes, Past;
    var t := AfterRead(c, s, readable);
    ReadFrame(c, s, readable);
    PrimaryKept(c, s, t);
    PreviousKept(c, s, t);
    if s.pc.ReadingCurrent? {
      CurrentPc(c, s, readable);
    } else if s.pc.ReadingTemp? {
      RotatedKept(c, s, t);
    }
  }

  lemma WriteFrame<T>(s: State<T>, ok: bool, left: Option<seq<Byte>>)
    requires s.pc.WritingTemp? || s.pc.WritingPreviousTemp?
    ensures PrimaryFrame(s, AfterWrite(s, ok, left)) && PreviousFrame(s, AfterWrite(s, ok, left))
  {
  }

  lemma InvWrite<T(!new)>(c: Codec<T>, s: State<T>, ok: bool, left: Option<seq<Byte>>)
    requires Faithful(c) && Inv(c, s) && Enabled(c, s, Wrote(ok, left))
    ensures Inv(c, Apply(c, s, Wrote(ok, left)))
  {
    hide PreviousOk, PrimaryOk, Rotated, Past;
    var t := AfterWrite(s, ok, left);
    WriteFrame(s, ok, left);
    PrimaryKept(c, s, t);
    PreviousKept(c, s, t);
    if s.pc.WritingTemp? { RotatedKept(c, s, t); }
  }

  lemma InvCrash<T(!new)>(c: Codec<T>, s: State<T>, torn: Option<seq<Byte>>)
    requires Faithful(c) && Inv(c, s)
    ensures Inv(c, Apply(c, s, Crash(torn)))
  {
    hide PreviousOk;
    PreviousKept(c, s, Apply(c, s, Crash(torn)));
  }

  lemma InvDamage<T(!new)>(c: Codec<T>, s: State<T>, file: Path, content: Option<seq<Byte>>)
    requires Faithful(c) && Inv(c, s) && Enabled(c, s, Damage(file, content))
    ensures Inv(c, Apply(c, s, Damage(file, content)))
  {
    if file.Primary? {
      PreviousKept(c, s, Apply(c, s, Damage(file, content)));
    }
  }

  lemma InvStart<T(!new)>(c: Codec<T>, s: State<T>, e: Event<T>)
    requires Faithful(c) && Inv(c, s) && Enabled(c, s, e) && (e.Begin? || e.Deleted?)
    ensures Inv(c, Apply(c, s, e))
  {
    hide PreviousOk;
    PreviousKept(c, s, Apply(c, s, e));
  }

  lemma InvRename<T(!new)>(c: Codec<T>, s: State<T>, ok: bool)
    requires Faithful(c) && Inv(c, s) && Enabled(c, s, Renamed(ok))
    ensures Inv(c, Apply(c, s, Renamed(ok)))
  {
    hide Inv, AfterRename;
    if s.pc.Rotating? {
      InvRotate(c, s, ok);
    } else {
      InvReplace(c, s, ok);
    }
  }

  lemma InvStep<T(!new)>(c: Codec<T>, s: State<T>, e: Event<T>)
    requires Faithful(c) && Inv(c, s) && Enabled(c, s, e)
    ensures Inv(c, Apply(c, s, e))
  {
    hide Inv, Apply, Enabled;
    match e
    case Renamed(ok) => InvRename(c, s, ok);
    case Read(readable) => InvRead(c, s, readable);
    case Wrote(ok, left) => InvWrite(c, s, ok, left);
    case Crash(torn) => InvCrash(c, s, torn);
    case Damage(file, content) => InvDamage(c, s, file, content);
    case _ => InvStart(c, s, e);
  }

  lemma {:induction false} InvRun<T(!new)>(c: Codec<T>, s: State<T>, es: seq<Event<T>>)
    requires Faithful(c) && Inv(c, s) && Runs(c, s, es)
    ensures Inv(c, End(c, s, es))
    decreases |es|
  {
    if es != [] {
      InvStep(c, s, es[0]);
      InvRun(c, Apply(c, s, es[0]), es[1..]);
    }
  }

  // ---------------------------------------------------------------- what a loader sees

  // After any run of saves, failures and crashes from an empty library, a
  // readable undamaged primary is exactly the last committed snapshot, and
  // with no commit there is nothing to load.
  lemma LoadIsLastCommit<T(!new)>(c: Codec<T>, leftovers: Disk, es: seq<Event<T>>, previousReads: bool)
    requires Faithful(c) && Runs(c, Initial(leftovers), es)
    ensures var t := End(c, Initial(leftovers), es);
      !t.damaged ==>
        Load(c, t.disk, true, previousReads)
        == if t.committed == [] then None else Some(t.committed[|t.committed| - 1])
  {
    InvRun(c, Initial(leftovers), es);
  }

  // Whatever is damaged or unreadable, a load never returns anything but a
  // committed snapshot.
  lemma LoadIsSomeCommit<T(!new)>(
    c: Codec<T>, leftovers: Disk, es: seq<Event<T>>, primaryReads: bool, previousReads: bool)
    requires Faithful(c) && Runs(c, Initial(leftovers), es)
    ensures var t := End(c, Initial(leftovers), es);
      var r := Load(c, t.disk, primaryReads, previousReads);
      r.Some? ==> r.value in t.committed
  {
    InvRun(c, Initial(leftovers), es);
  }

  // With the primary lost, a commit still loads exactly when some rotation
  // completed and its copy is unharmed; without earlier damage two commits are
  // enough for a rotation, and the loss costs at most the last commit.
  lemma PreviousSurvives<T(!new)>(c: Codec<T>, leftovers: Disk, es: seq<Event<T>>, loss: Option<seq<Byte>>)
    requires Faithful(c) && Runs(c, Initial(leftovers), es)
    requires Enabled(c, End(c, Initial(leftovers), es), Damage(Primary, loss))
    ensures var t := End(c, Initial(leftovers), es);
      var n := |t.committed|;
      var r := Load(c, Apply(c, t, Damage(Primary, loss)).disk, true, true);
      && (r.Some? <==> t.rotated && !t.previousDamaged)
      && (!t.everDamaged && n >= 2 ==> t.rotated)
      && (!t.everDamaged && n >= 2 && !t.previousDamaged ==> r in {Some(t.committed[n - 1]), Some(t.committed[n - 2])})
  {
    InvRun(c, Initial(leftovers), es);
    var t := End(c, Initial(leftovers), es);
    if t.rotated && !t.previousDamaged {
      var k :| k >= Oldest(t) && Encodes(c, t, t.disk[Previous], k);
      assert Load(c, Apply(c, t, Damage(Primary, loss)).disk, true, true) == Some(t.committed[k]);
    }
  }

  // ---------------------------------------------------------------- what a saver is told

  // The snapshot of the last save begun, unless a crash came after it.
  ghost function Wanted<T>(es: seq<Event<T>>): Option<T> {
    if es == [] then None else WantedAfter(Wanted(es[..|es| - 1]), es[|es| - 1])
  }

  ghost function WantedAfter<T>(wanted: Option<T>, e: Event<T>): Option<T> {
    match e
    case Begin(x) => Some(x)
    case Crash(_) => None
    case _ => wanted
  }

  // While a save runs it is about the snapshot it was begun with and has told
  // nothing; a save that is over has told something, and success only if its
  // snapshot is the last commit.
  ghost predicate ReportRight<T>(s: State<T>, wanted: Option<T>) {
    && (!s.pc.Idle? ==> wanted == Some(s.pc.snapshot))
    && (s.reported.Some? <==> s.pc.Idle? && wanted.Some?)
    && (s.reported == Some(true) ==>
          s.committed != [] && wanted == Some(s.committed[|s.committed| - 1]))
  }

  lemma ReportRead<T>(c: Codec<T>, s: State<T>, readable: bool, wanted: Option<T>)
    requires PcOk(c, s) && Enabled(c, s, Read(readable)) && ReportRight(s, wanted)
    ensures ReportRight(AfterRead(c, s, readable), wanted)
  {
    hide Rotated, Encodes, ReadsBack;
  }

  lemma ReportWrite<T>(c: Codec<T>, s: State<T>, ok: bool, left: Option<seq<Byte>>, wanted: Option<T>)
    requires Enabled(c, s, Wrote(ok, left)) && ReportRight(s, wanted)
    ensures ReportRight(AfterWrite(s, ok, left), wanted)
  {
    hide Put;
  }

  lemma ReportRename<T>(c: Codec<T>, s: State<T>, ok: bool, wanted: Option<T>)
    requires Enabled(c, s, Renamed(ok)) && ReportRight(s, wanted)
    ensures ReportRight(AfterRename(s, ok), wanted)
  {
    hide Moved;
  }

  lemma ReportStep<T>(c: Codec<T>, s: State<T>, e: Event<T>, wanted: Option<T>)
    requires PcOk(c, s) && Enabled(c, s, e) && ReportRight(s, wanted)
    ensures ReportRight(Apply(c, s, e), WantedAfter(wanted, e))
  {
    hide PcOk, AfterRead, AfterWrite, AfterRename, Put, Torn;
    match e
    case Read(readable) => ReportRead(c, s, readable, wanted);
    case Wrote(ok, left) => ReportWrite(c, s, ok, left, wanted);
    case Renamed(ok) => ReportRename(c, s, ok, wanted);
    case Begin(_) | Deleted(_) | Crash(_) | Damage(_, _) =>
  }

  lemma InvHasPc<T>(c: Codec<T>, s: State<T>)
    requires Inv(c, s)
    ensures PcOk(c, s)
  {
  }

  lemma WantedSnoc<T>(es: seq<Event<T>>, e: Event<T>)
    ensures Wanted(es + [e]) == WantedAfter(Wanted(es), e)
  {
    assert (es + [e])[..|es|] == es;
  }

  lemma {:induction false} ReportRun<T(!new)>(c: Codec<T>, s: State<T>, es: seq<Event<T>>, before: seq<Event<T>>)
    requires Faithful(c) && Inv(c, s) && Runs(c, s, es) && ReportRight(s, Wanted(before))
    ensures ReportRight(End(c, s, es), Wanted(before + es)) && Inv(c, End(c, s, es))
    decreases |es|
  {
    hide Inv, Enabled, Apply, ReportRight, Wanted;
    if es == [] {
      assert before + es == before;
    } else {
      InvStep(c, s, es[0]);
      assert PcOk(c, s) by { InvHasPc(c, s); }
      ReportStep(c, s, es[0], Wanted(before));
      WantedSnoc(before, es[0]);
      assert before + es == before + [es[0]] + es[1..];
      ReportRun(c, Apply(c, s, es[0]), es[1..], before + [es[0]]);
    }
  }

  lemma OnlyReadBackReadSucceeds<T>(c: Codec<T>, s: State<T>, readable: bool)
    requires Enabled(c, s, Read(readable)) && AfterRead(c, s, readable).reported == Some(true)
    requires s.reported != Some(true)
    ensures s.pc.ReadingBack?
  {
    hide ReadsBack, AfterCurrent;
  }

  // Nothing but the last look of a save reports success.
  lemma OnlyReadBackSucceeds<T>(c: Codec<T>, s: State<T>, e: Event<T>)
    requires Enabled(c, s, e) && Apply(c, s, e).reported == Some(true) && s.reported != Some(true)
    ensures s.pc.ReadingBack? && e.Read?
  {
    hide Moved, Put, Torn, AfterRead;
    match e
    case Read(readable) => OnlyReadBackReadSucceeds(c, s, readable);
    case Begin(_) | Deleted(_) | Wrote(_, _) | Renamed(_) | Crash(_) | Damage(_, _) =>
  }

  lemma SuccessWasReadBack<T(!new)>(c: Codec<T>, s: State<T>, e: Event<T>)
    requires Faithful(c) && Inv(c, s) && Enabled(c, s, e)
    requires Apply(c, s, e).reported == Some(true) && s.reported != Some(true)
    ensures var t := Apply(c, s, e);
      t.committed != [] && Load(c, t.disk, true, true) == Some(t.committed[|t.committed| - 1])
  {
    hide PrimaryOk, PreviousOk;
    OnlyReadBackSucceeds(c, s, e);
    assert c.valid(s.committed[|s.committed| - 1]);
  }

  // At the very step at which a save reports success, its snapshot is the last
  // commit and a load returns it.  Later damage does not unsay the commit.
  lemma SuccessIsDurable<T(!new)>(c: Codec<T>, leftovers: Disk, es: seq<Event<T>>, e: Event<T>)
    requires Faithful(c) && Runs(c, Initial(leftovers), es) && Enabled(c, End(c, Initial(leftovers), es), e)
    ensures var s := End(c, Initial(leftovers), es); var t := Apply(c, s, e);
      t.reported == Some(true) ==>
        && t.committed != [] && Wanted(es + [e]) == Some(t.committed[|t.committed| - 1])
        && (s.reported != Some(true) ==> Load(c, t.disk, true, true) == Wanted(es + [e]))
  {
    ReportRun(c, Initial(leftovers), es, []);
    assert [] + es == es;
    var s := End(c, Initial(leftovers), es);
    ReportStep(c, s, e, Wanted(es));
    WantedSnoc(es, e);
    InvStep(c, s, e);
    hide Inv, Runs, End, Wanted, Apply, Enabled;
    var t := Apply(c, s, e);
    if t.reported == Some(true) && s.reported != Some(true) {
      SuccessWasReadBack(c, s, e);
    }
  }

  // Exactly the saves that are over and were not cut off by a crash have told
  // their result.
  lemma EverySaveReports<T(!new)>(c: Codec<T>, leftovers: Disk, es: seq<Event<T>>)
    requires Faithful(c) && Runs(c, Initial(leftovers), es)
    ensures var t := End(c, Initial(leftovers), es); t.reported.Some? <==> t.pc.Idle? && Wanted(es).Some?
  {
    ReportRun(c, Initial(leftovers), es, []);
    assert [] + es == es;
  }

  // Since the last save was begun no crash, no failed delete and no failed write.
  ghost predicate Orderly<T>(c: Codec<T>, es: seq<Event<T>>) {
    es != [] && OrderlyAfter(c, Orderly(c, es[..|es| - 1]), es[|es| - 1])
  }

  // The temporary files that are there are those this save still needs.
  ghost predicate Tidy<T>(s: State<T>) {
    && (Temp in s.disk ==> s.pc.DeletingTemp? || s.pc.ReadingTemp? || s.pc.Replacing?)
    && (PreviousTemp in s.disk ==> s.pc.DeletingTemp? || s.pc.DeletingPreviousTemp? || s.pc.Rotating?)
  }

  ghost predicate OrderlyAfter<T>(c: Codec<T>, orderly: bool, e: Event<T>) {
    match e
    case Begin(x) => c.valid(x)
    case Crash(_) => false
    case Deleted(ok) => ok && orderly
    case Wrote(ok, _) => ok && orderly
    case _ => orderly
  }

  lemma OrderlySnoc<T>(c: Codec<T>, es: seq<Event<T>>, e: Event<T>)
    ensures Orderly(c, es + [e]) == OrderlyAfter(c, Orderly(c, es), e)
  {
    assert (es + [e])[..|es|] == es;
  }

  lemma TidyRead<T>(c: Codec<T>, s: State<T>, readable: bool)
    requires Enabled(c, s, Read(readable)) && Tidy(s)
    ensures Tidy(AfterRead(c, s, readable))
  {
    hide ReadsBack;
  }

  lemma TidyRename<T>(c: Codec<T>, s: State<T>, ok: bool)
    requires Enabled(c, s, Renamed(ok)) && Tidy(s)
    ensures Tidy(AfterRename(s, ok))
  {
  }

  lemma TidyStep<T>(c: Codec<T>, s: State<T>, e: Event<T>, orderly: bool)
    requires Enabled(c, s, e) && (orderly ==> Tidy(s))
    ensures OrderlyAfter(c, orderly, e) ==> Tidy(Apply(c, s, e))
  {
    hide AfterRead, AfterRename, Torn;
    match e
    case Read(readable) => if orderly { TidyRead(c, s, readable); }
    case Renamed(ok) => if orderly { TidyRename(c, s, ok); }
    case Begin(_) | Deleted(_) | Wrote(_, _) | Crash(_) | Damage(_, _) =>
  }

  lemma {:induction false} TidyRun<T>(c: Codec<T>, s: State<T>, es: seq<Event<T>>, before: seq<Event<T>>)
    requires Runs(c, s, es) && (Orderly(c, before) ==> Tidy(s))
    ensures Orderly(c, before + es) ==> Tidy(End(c, s, es))
    decreases |es|
  {
    hide Enabled, Apply, Orderly, Tidy;
    if es == [] {
      assert before + es == before;
    } else {
      TidyStep(c, s, es[0], Orderly(c, before));
      OrderlySnoc(c, before, es[0]);
      assert before + es == before + [es[0]] + es[1..];
      TidyRun(c, Apply(c, s, es[0]), es[1..], before + [es[0]]);
    }
  }

  // A save that is over leaves no temporary file, whether it succeeded or not,
  // unless a delete or a write failed or a crash came in between.
  lemma NoTemporaryLeft<T>(c: Codec<T>, leftovers: Disk, es: seq<Event<T>>)
    requires Runs(c, Initial(leftovers), es)
    ensures var t := End(c, Initial(leftovers), es); t.pc.Idle? && Orderly(c, es) ==> Temp !in t.disk && PreviousTemp !in t.disk
  {
    NothingOrderly(c);
    hide Runs, End, Orderly;
    TidyRun(c, Initial(leftovers), es, []);
    assert [] + es == es;
  }

  lemma NothingOrderly<T>(c: Codec<T>)
    ensures !Orderly<T>(c, [])
  {
  }

  // ---------------------------------------------------------------- two commits need not survive

  // Saving x over a primary that is absent or undecodable: nothing is rotated.
  ghost function FreshSave<T>(c: Codec<T>, x: T): seq<Event<T>> {
    [Begin(x), Deleted(true), Deleted(true), Read(true), Wrote(true, Some(c.enc(x))), Read(true),
     Renamed(true), Read(true)]
  }

  lemma {:induction false} RunsConcat<T>(c: Codec<T>, s: State<T>, es: seq<Event<T>>, fs: seq<Event<T>>)
    requires Runs(c, s, es) && Runs(c, End(c, s, es), fs)
    ensures Runs(c, s, es + fs) && End(c, s, es + fs) == End(c, End(c, s, es), fs)
    decreases |es|
  {
    hide Enabled, Apply;
    if es == [] {
      assert es + fs == fs;
    } else {
      assert (es + fs)[1..] == es[1..] + fs;
      RunsConcat(c, Apply(c, s, es[0]), es[1..], fs);
    }
  }

  lemma Snoc<T>(c: Codec<T>, s: State<T>, es: seq<Event<T>>, e: Event<T>)
    requires Runs(c, s, es) && Enabled(c, End(c, s, es), e)
    ensures Runs(c, s, es + [e]) && End(c, s, es + [e]) == Apply(c, End(c, s, es), e)
  {
    hide Enabled, Apply;
    var m := End(c, s, es);
    assert Runs(c, m, [e]) && End(c, m, [e]) == Apply(c, m, e);
    RunsConcat(c, s, es, [e]);
  }

  lemma FreshSaveStarts<T>(c: Codec<T>, s: State<T>, x: T)
    requires c.valid(x) && s.pc.Idle?
    requires Primary in s.disk ==> c.dec(s.disk[Primary]) == None
    ensures var es := FreshSave(c, x)[..4];
      && Runs(c, s, es)
      && End(c, s, es) == s.(pc := WritingTemp(x), disk := s.disk - {Temp, PreviousTemp}, reported := None)
  {
    var f := FreshSave(c, x);
    Snoc(c, s, [], f[0]);
    Snoc(c, s, f[..1], f[1]);
    assert f[..1] + [f[1]] == f[..2] && f[..2] + [f[2]] == f[..3] && f[..3] + [f[3]] == f[..4];
    Snoc(c, s, f[..2], f[2]);
    assert s.disk - {Temp} - {PreviousTemp} == s.disk - {Temp, PreviousTemp};
    Snoc(c, s, f[..3], f[3]);
  }

  lemma FreshSaveWrites<T(!new)>(c: Codec<T>, s: State<T>, x: T)
    requires Faithful(c) && c.valid(x) && s.pc == WritingTemp(x)
    ensures var es := FreshSave(c, x)[4..6];
      && Runs(c, s, es)
      && End(c, s, es) == s.(pc := Replacing(x), disk := s.disk[Temp := c.enc(x)])
  {
    var f := FreshSave(c, x)[4..6];
    Snoc(c, s, [], f[0]);
    Snoc(c, s, f[..1], f[1]);
    assert [] + [f[0]] == f[..1] && f[..1] + [f[1]] == f;
  }

  lemma FreshSaveEnds<T(!new)>(c: Codec<T>, s: State<T>, x: T)
    requires Faithful(c) && c.valid(x) && s.pc == Replacing(x) && Temp in s.disk && s.disk[Temp] == c.enc(x)
    ensures var es := FreshSave(c, x)[6..];
      && Runs(c, s, es)
      && End(c, s, es) == s.(pc := Idle, disk := s.disk[Primary := c.enc(x)] - {Temp},
                            committed := s.committed + [x], damaged := false, reported := Some(true))
  {
    var f := FreshSave(c, x)[6..];
    Snoc(c, s, [], f[0]);
    Snoc(c, s, f[..1], f[1]);
    assert [] + [f[0]] == f[..1] && f[..1] + [f[1]] == f;
  }

  lemma FreshSaveRuns<T(!new)>(c: Codec<T>, s: State<T>, x: T)
    requires Faithful(c) && c.valid(x) && s.pc.Idle?
    requires Primary in s.disk ==> c.dec(s.disk[Primary]) == None
    ensures Runs(c, s, FreshSave(c, x))
    ensures End(c, s, FreshSave(c, x))
         == s.(pc := Idle, disk := (s.disk - {Temp, PreviousTemp})[Primary := c.enc(x)],
               committed := s.committed + [x], damaged := false, reported := Some(true))
  {
    hide Enabled, Apply;
    var f := FreshSave(c, x);
    FreshSaveStarts(c, s, x);
    var t := End(c, s, f[..4]);
    FreshSaveWrites(c, t, x);
    FreshSaveEnds(c, End(c, t, f[4..6]), x);
    RunsConcat(c, t, f[4..6], f[6..]);
    RunsConcat(c, s, f[..4], f[4..6] + f[6..]);
    assert f == f[..4] + (f[4..6] + f[6..]);
    assert t.disk[Temp := c.enc(x)][Primary := c.enc(x)] - {Temp} == t.disk[Primary := c.enc(x)];
  }

  // Saving x over a primary that decodes: it is rotated first.
  ghost function RotatingSave<T>(c: Codec<T>, x: T, current: seq<Byte>): seq<Event<T>> {
    [Begin(x), Deleted(true), Deleted(true), Read(true), Wrote(true, Some(current)), Renamed(true)]
    + FreshSave(c, x)[4..]
  }

  lemma RotationRuns<T>(c: Codec<T>, s: State<T>, x: T)
    requires c.valid(x) && s.pc.Idle? && Primary in s.disk && c.dec(s.disk[Primary]).Some?
    ensures var es := RotatingSave(c, x, s.disk[Primary])[..6];
      && Runs(c, s, es)
      && End(c, s, es) == s.(pc := WritingTemp(x), rotated := true, previousDamaged := false, reported := None,
                             disk := (s.disk - {Temp, PreviousTemp})[Previous := s.disk[Primary]])
  {
    var f, d := RotatingSave(c, x, s.disk[Primary]), s.disk - {Temp, PreviousTemp};
    assert f[..1] + [f[1]] == f[..2] && f[..2] + [f[2]] == f[..3] && f[..3] + [f[3]] == f[..4];
    assert f[..4] + [f[4]] == f[..5] && f[..5] + [f[5]] == f[..6];
    Snoc(c, s, [], f[0]);
    Snoc(c, s, f[..1], f[1]);
    Snoc(c, s, f[..2], f[2]);
    assert s.disk - {Temp} - {PreviousTemp} == d;
    Snoc(c, s, f[..3], f[3]);
    Snoc(c, s, f[..4], f[4]);
    assert d[PreviousTemp := s.disk[Primary]][Previous := s.disk[Primary]] - {PreviousTemp} == d[Previous := s.disk[Primary]];
    Snoc(c, s, f[..5], f[5]);
  }

  // Damage between two commits prevents the rotation: both commits are then
  // one further damage away from being lost.
  lemma TwoCommitsCanBeLost<T(!new)>(c: Codec<T>, x: T, y: T) returns (es: seq<Event<T>>)
    requires Faithful(c) && c.valid(x) && c.valid(y)
    ensures Runs(c, Initial(map[]), es)
    ensures var t := End(c, Initial(map[]), es);
      t.committed == [x, y] && Load(c, t.disk, true, true) == None
  {
    var s := Initial(map[]);
    var lost := [Damage(Primary, None)];
    FreshSaveRuns(c, s, x);
    var s1 := End(c, s, FreshSave(c, x));
    Snoc(c, s, FreshSave(c, x), Damage(Primary, None));
    var s2 := Apply(c, s1, Damage(Primary, None));
    FreshSaveRuns(c, s2, y);
    Snoc(c, s2, FreshSave(c, y), Damage(Primary, None));
    RunsConcat(c, s, FreshSave(c, x) + lost, FreshSave(c, y) + lost);
    es := FreshSave(c, x) + lost + (FreshSave(c, y) + lost);
  }

  // No file operation of these fails, and nothing is harmed.
  ghost predicate Undisturbed<T>(es: seq<Event<T>>) {
    forall k :: 0 <= k < |es| ==>
      match es[k]
      case Begin(_) => true
      case Deleted(ok) => ok
      case Read(readable) => readable
      case Wrote(ok, _) => ok
      case Renamed(ok) => ok
      case Crash(_) => false
      case Damage(_, _) => false
  }

  lemma RotatingSaveRuns<T(!new)>(c: Codec<T>, s: State<T>, x: T)
    requires Faithful(c) && c.valid(x) && s.pc.Idle? && Primary in s.disk && c.dec(s.disk[Primary]).Some?
    ensures var fs := RotatingSave(c, x, s.disk[Primary]);
      && Runs(c, s, fs)
      && End(c, s, fs) == s.(pc := Idle, committed := s.committed + [x], damaged := false, rotated := true,
             previousDamaged := false, reported := Some(true),
             disk := (s.disk - {Temp, PreviousTemp})[Previous := s.disk[Primary]][Primary := c.enc(x)])
  {
    hide Enabled, Apply;
    var f, g := RotatingSave(c, x, s.disk[Primary]), FreshSave(c, x);
    RotationRuns(c, s, x);
    var t := End(c, s, f[..6]);
    FreshSaveWrites(c, t, x);
    FreshSaveEnds(c, End(c, t, g[4..6]), x);
    hide Runs, End;
    RunsConcat(c, t, g[4..6], g[6..]);
    RunsConcat(c, s, f[..6], g[4..6] + g[6..]);
    assert f == f[..6] + (g[4..6] + g[6..]);
    assert t.disk[Temp := c.enc(x)][Primary := c.enc(x)] - {Temp} == t.disk[Primary := c.enc(x)];
  }

  // An undamaged primary decodes as the last commit.
  lemma CommitDecodes<T(!new)>(c: Codec<T>, s: State<T>)
    requires Faithful(c) && Inv(c, s)
    ensures s.committed != [] && !s.damaged ==>
      Primary in s.disk && c.dec(s.disk[Primary]) == Some(s.committed[|s.committed| - 1])
  {
    hide PreviousOk, PcOk;
  }

  // Whatever went before, a save of a valid snapshot that nothing disturbs
  // commits it, reports success, and leaves the primary it found, if that still
  // held a commit, as the copy to fall back to.
  lemma UndisturbedSaveSucceeds<T(!new)>(c: Codec<T>, leftovers: Disk, es: seq<Event<T>>, x: T) returns (fs: seq<Event<T>>)
    requires Faithful(c) && Runs(c, Initial(leftovers), es) && End(c, Initial(leftovers), es).pc.Idle? && c.valid(x)
    ensures var s := End(c, Initial(leftovers), es);
      && Undisturbed(fs) && fs != [] && fs[0] == Begin(x) && Runs(c, s, fs)
      && var t := End(c, s, fs);
         && t.pc.Idle? && t.reported == Some(true) && t.committed == s.committed + [x]
         && Load(c, t.disk, true, true) == Some(x)
         && (s.committed != [] && !s.damaged ==>
               t.rotated && !t.previousDamaged && Load(c, t.disk, false, true) == Some(s.committed[|s.committed| - 1]))
  {
    var s := End(c, Initial(leftovers), es);
    InvRun(c, Initial(leftovers), es);
    CommitDecodes(c, s);
    hide Runs, End, Enabled, Apply, Inv;
    if Primary in s.disk && c.dec(s.disk[Primary]).Some? {
      fs := RotatingSave(c, x, s.disk[Primary]);
      RotatingSaveRuns(c, s, x);
    } else {
      fs := FreshSave(c, x);
      FreshSaveRuns(c, s, x);
    }
  }
}
