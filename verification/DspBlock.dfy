/**
One block of dsp_loop in src/rack/main.cpp: the chain of an acquired generation
runs over two scratch buffers in turn, and the block is given back either whole
or dry.  A plug-in is what it makes of one block: it may fail after writing
anything into its output buffer, and writes nowhere else.
 */
module DspBlock {
  import opened Wrappers

  type Sample = real
  type Block = seq<seq<Sample>>

  const MAX_CHANNELS: nat := 2
  const MAX_FRAMES: nat := 2048
  const SLOT_ID_A: nat := 0xA001
  const SLOT_ID_B: nat := 0xB002
  const KNOWN_BYPASS_MASK: nat := 3
  const TWO_32: nat := 0x1_0000_0000

  datatype Outcome = Outcome(ok: bool, written: Block)

  datatype Slot = Slot(id: nat, latency: nat, effect: Block -> Outcome)

  datatype Result = Ok | InvalidBlock | PluginAError | PluginBError | PluginCError

  // bypass_mask has bit 0 for slot A and bit 1 for slot B.
  predicate Bypassed(id: nat, mask: nat) {
    (id == SLOT_ID_A && mask % 2 == 1) || (id == SLOT_ID_B && mask / 2 % 2 == 1)
  }

  function ErrorFor(id: nat): Result {
    if id == SLOT_ID_A then PluginAError else if id == SLOT_ID_B then PluginBError else PluginCError
  }

  predicate Shaped(b: Block, channels: nat, frames: nat) {
    |b| == channels && forall c :: 0 <= c < channels ==> |b[c]| == frames
  }

  // A plug-in is handed and hands back blocks of one shape.
  ghost predicate KeepsShape(s: Slot, channels: nat, frames: nat) {
    forall b: Block :: Shaped(b, channels, frames) ==> Shaped(s.effect(b).written, channels, frames)
  }

  // ---------------------------------------------------------------- what a chain does

  function Playing(slots: seq<Slot>, mask: nat): seq<Slot> {
    if slots == [] then []
    else (if Bypassed(slots[0].id, mask) then [] else [slots[0]]) + Playing(slots[1..], mask)
  }

  datatype Run = Done(block: Block) | FailedAt(id: nat)

  // Every slot in turn over the block, up to the first that fails.
  function Chain(slots: seq<Slot>, b: Block): Run {
    if slots == [] then Done(b)
    else if !slots[0].effect(b).ok then FailedAt(slots[0].id)
    else Chain(slots[1..], slots[0].effect(b).written)
  }

  function Latency(slots: seq<Slot>): nat {
    if slots == [] then 0 else slots[0].latency + Latency(slots[1..])
  }

  // Running two chains one after the other is running their concatenation: the
  // second starts from what the first made, and a failure in the first ends both.
  lemma {:induction false} ChainComposes(first: seq<Slot>, second: seq<Slot>, b: Block)
    ensures Chain(first + second, b)
         == match Chain(first, b)
            case Done(c) => Chain(second, c)
            case FailedAt(id) => FailedAt(id)
    decreases |first|
  {
    if first == [] {
      assert first + second == second;
    } else {
      assert (first + second)[1..] == first[1..] + second;
      if first[0].effect(b).ok { ChainComposes(first[1..], second, first[0].effect(b).written); }
    }
  }

  // Bypassed slots may stand anywhere: neither the output nor the latency tells.
  lemma {:induction false} BypassedSlotsVanish(before: seq<Slot>, slot: Slot, after: seq<Slot>, mask: nat)
    requires Bypassed(slot.id, mask)
    ensures Playing(before + [slot] + after, mask) == Playing(before + after, mask)
    decreases |before|
  {
    if before == [] {
      assert before + [slot] + after == [slot] + after && before + after == after;
      assert ([slot] + after)[1..] == after;
    } else {
      assert (before + [slot] + after)[1..] == before[1..] + [slot] + after;
      assert (before + after)[1..] == before[1..] + after;
      BypassedSlotsVanish(before[1..], slot, after, mask);
    }
  }

  lemma PlayingFrom(slots: seq<Slot>, k: nat, mask: nat)
    requires k < |slots|
    ensures Bypassed(slots[k].id, mask) ==> Playing(slots[k..], mask) == Playing(slots[k + 1..], mask)
    ensures !Bypassed(slots[k].id, mask) ==>
      && Playing(slots[k..], mask) != [] && Playing(slots[k..], mask)[0] == slots[k]
      && Playing(slots[k..], mask)[1..] == Playing(slots[k + 1..], mask)
  {
    assert slots[k..][1..] == slots[k + 1..];
    assert [] + Playing(slots[k + 1..], mask) == Playing(slots[k + 1..], mask);
  }

  lemma {:induction false} LatencyComposes(first: seq<Slot>, second: seq<Slot>)
    ensures Latency(first + second) == Latency(first) + Latency(second)
    ensures forall s :: Latency([s]) == s.latency
  {
    if first == [] {
      assert first + second == second;
    } else {
      assert (first + second)[1..] == first[1..] + second;
      LatencyComposes(first[1..], second);
    }
  }

  // ---------------------------------------------------------------- slot by slot

  // The block's mask switches slot A off by its low bit, slot B by the next.
  ghost predicate Off(id: nat, mask: nat) {
    (id == SLOT_ID_A && mask in {1, 3}) || (id == SLOT_ID_B && mask in {2, 3})
  }

  // The positions, from the k-th on, of the slots the mask leaves on, in order.
  ghost predicate OnFrom(slots: seq<Slot>, mask: nat, k: nat, on: seq<nat>) {
    && (forall i, j :: 0 <= i < j < |on| ==> on[i] < on[j])
    && (forall i :: i in on <==> k <= i < |slots| && !Off(slots[i].id, mask))
  }

  // blocks[i] is what the i-th of these slots is handed: each makes of it,
  // without failing, what the next is handed.
  ghost predicate Passed(slots: seq<Slot>, on: seq<nat>, blocks: seq<Block>) {
    && 0 < |blocks| <= |on| + 1 && (forall i :: 0 <= i < |on| ==> on[i] < |slots|)
    && forall i :: 0 <= i < |blocks| - 1 ==> slots[on[i]].effect(blocks[i]) == Outcome(true, blocks[i + 1])
  }

  // Every slot that is on has had its turn; `after` is what the last one made.
  ghost predicate PassedAll(slots: seq<Slot>, mask: nat, before: Block, after: Block) {
    exists on, blocks :: OnFrom(slots, mask, 0, on) && Passed(slots, on, blocks)
      && blocks[0] == before && |blocks| == |on| + 1 && blocks[|on|] == after
  }

  // The slots that are on took their turns up to one that failed, slot `id`.
  ghost predicate PassedUpTo(slots: seq<Slot>, mask: nat, before: Block, id: nat) {
    exists on, blocks :: OnFrom(slots, mask, 0, on) && Passed(slots, on, blocks)
      && blocks[0] == before && |blocks| <= |on| && slots[on[|blocks| - 1]].id == id
      && !slots[on[|blocks| - 1]].effect(blocks[|blocks| - 1]).ok
  }

  lemma InCons(k: nat, rest: seq<nat>)
    ensures forall i :: i in [k] + rest <==> i == k || i in rest
  {
  }

  lemma ClimbsCons(k: nat, rest: seq<nat>)
    requires (forall i, j :: 0 <= i < j < |rest| ==> rest[i] < rest[j]) && forall i :: 0 <= i < |rest| ==> k < rest[i]
    ensures var on := [k] + rest; forall i, j :: 0 <= i < j < |on| ==> on[i] < on[j]
  {
    var on := [k] + rest;
    assert forall i :: 0 < i < |on| ==> on[i] == rest[i - 1];
  }

  lemma OnCons(slots: seq<Slot>, mask: nat, k: nat, rest: seq<nat>)
    requires k < |slots| && OnFrom(slots, mask, k + 1, rest)
    ensures OnFrom(slots, mask, k, if Off(slots[k].id, mask) then rest else [k] + rest)
  {
    hide Off;
    if !Off(slots[k].id, mask) {
      forall i | 0 <= i < |rest|
        ensures k < rest[i]
      {
        assert rest[i] in rest;
      }
      ClimbsCons(k, rest);
      InCons(k, rest);
    }
  }

  lemma PassedCons(slots: seq<Slot>, k: nat, rest: seq<nat>, b: Block, made: seq<Block>)
    requires k < |slots| && Passed(slots, rest, made) && slots[k].effect(b) == Outcome(true, made[0])
    ensures Passed(slots, [k] + rest, [b] + made)
    ensures |[b] + made| - 1 == |made| && forall i :: 0 <= i < |rest| ==> ([k] + rest)[i + 1] == rest[i]
  {
    var on, blocks := [k] + rest, [b] + made;
    assert forall i :: 0 < i < |on| ==> on[i] == rest[i - 1];
    forall i | 0 <= i < |blocks| - 1
      ensures slots[on[i]].effect(blocks[i]) == Outcome(true, blocks[i + 1])
    {
      if i > 0 { assert blocks[i] == made[i - 1] && blocks[i + 1] == made[i]; }
    }
  }

  // How the run of a chain ends, in terms of the blocks handed on.
  ghost predicate Ends(slots: seq<Slot>, on: seq<nat>, blocks: seq<Block>, run: Run)
    requires Passed(slots, on, blocks)
  {
    var n := |blocks| - 1;
    && (run.Done? ==> n == |on| && blocks[n] == run.block)
    && (run.FailedAt? ==> n < |on| && slots[on[n]].id == run.id && !slots[on[n]].effect(blocks[n]).ok)
  }

  lemma EndsCons(slots: seq<Slot>, k: nat, rest: seq<nat>, b: Block, made: seq<Block>, run: Run)
    requires k < |slots| && Passed(slots, rest, made) && slots[k].effect(b) == Outcome(true, made[0])
    requires Ends(slots, rest, made, run)
    ensures Passed(slots, [k] + rest, [b] + made) && Ends(slots, [k] + rest, [b] + made, run)
  {
    PassedCons(slots, k, rest, b, made);
    var n := |made| - 1;
    assert ([b] + made)[n + 1] == made[n];
  }

  lemma EndsHere(slots: seq<Slot>, k: nat, rest: seq<nat>, b: Block, made: seq<Block>)
    requires k < |slots| && Passed(slots, rest, made) && !slots[k].effect(b).ok
    ensures Passed(slots, [k] + rest, [b]) && Ends(slots, [k] + rest, [b], FailedAt(slots[k].id))
  {
    assert forall i :: 0 < i < |[k] + rest| ==> ([k] + rest)[i] == rest[i - 1];
  }

  lemma {:induction false} ChainPasses(slots: seq<Slot>, mask: nat, k: nat, b: Block)
    returns (on: seq<nat>, blocks: seq<Block>)
    requires k <= |slots| && mask <= KNOWN_BYPASS_MASK
    ensures OnFrom(slots, mask, k, on) && Passed(slots, on, blocks) && blocks[0] == b
    ensures Ends(slots, on, blocks, Chain(Playing(slots[k..], mask), b))
    decreases |slots| - k
  {
    if k == |slots| {
      return [], [b];
    }
    PlayingFrom(slots, k, mask);
    var s := slots[k];
    assert Bypassed(s.id, mask) <==> Off(s.id, mask);
    hide OnFrom, Passed, Playing, Off, Bypassed, Ends;
    if Off(s.id, mask) {
      on, blocks := ChainPasses(slots, mask, k + 1, b);
      OnCons(slots, mask, k, on);
    } else {
      var rest, made := ChainPasses(slots, mask, k + 1, s.effect(b).written);
      OnCons(slots, mask, k, rest);
      on := [k] + rest;
      if s.effect(b).ok {
        blocks := [b] + made;
        EndsCons(slots, k, rest, b, made, Chain(Playing(slots[k + 1..], mask), s.effect(b).written));
      } else {
        blocks := [b];
        EndsHere(slots, k, rest, b, made);
      }
    }
  }

  // Chain and Playing say what happens slot by slot.
  lemma ChainIsSlotBySlot(slots: seq<Slot>, mask: nat, b: Block)
    requires mask <= KNOWN_BYPASS_MASK
    ensures var run := Chain(Playing(slots, mask), b);
            && (run.Done? ==> PassedAll(slots, mask, b, run.block))
            && (run.FailedAt? ==> PassedUpTo(slots, mask, b, run.id))
  {
    var on, blocks := ChainPasses(slots, mask, 0, b);
    assert slots[0..] == slots;
  }

  lemma AddWraps(a: nat, b: nat)
    ensures (a % TWO_32 + b) % TWO_32 == (a + b) % TWO_32
  {
    var q := a / TWO_32;
    assert a + b == TWO_32 * q + (a % TWO_32 + b);
  }

  // ---------------------------------------------------------------- buffers

  function Row(a: array2<Sample>, c: nat, frames: nat): seq<Sample>
    requires c < a.Length0 && frames <= a.Length1
    reads a
  {
    seq(frames, f requires 0 <= f < frames <= a.Length1 && c < a.Length0 reads a => a[c, f])
  }

  // The samples of a block in a buffer.
  function View(a: array2<Sample>, channels: nat, frames: nat): (b: Block)
    requires channels <= a.Length0 && frames <= a.Length1
    reads a
    ensures Shaped(b, channels, frames)
    ensures forall c, f :: 0 <= c < channels && 0 <= f < frames ==> b[c][f] == a[c, f]
  {
    seq(channels, c requires 0 <= c < channels <= a.Length0 && frames <= a.Length1 reads a => Row(a, c, frames))
  }

  lemma SameBlock(a: Block, b: Block, channels: nat, frames: nat)
    requires Shaped(a, channels, frames) && Shaped(b, channels, frames)
    requires forall c, f :: 0 <= c < channels && 0 <= f < frames ==> a[c][f] == b[c][f]
    ensures a == b
  {
    forall c | 0 <= c < channels
      ensures a[c] == b[c]
    {
    }
  }

  method Fill(target: array2<Sample>, b: Block, channels: nat, frames: nat)
    requires channels <= target.Length0 && frames <= target.Length1 && Shaped(b, channels, frames)
    modifies target
    ensures View(target, channels, frames) == b
  {
    for c := 0 to channels
      invariant forall k, f :: 0 <= k < c && 0 <= f < frames ==> target[k, f] == b[k][f]
    {
      for f := 0 to frames
        invariant forall k, g :: 0 <= k < c && 0 <= g < frames ==> target[k, g] == b[k][g]
        invariant forall g :: 0 <= g < f ==> target[c, g] == b[c][g]
      {
        target[c, f] := b[c][f];
      }
    }
    SameBlock(View(target, channels, frames), b, channels, frames);
  }

  // copy_original_dry and copy_current_output.
  method Copy(source: array2<Sample>, target: array2<Sample>, channels: nat, frames: nat)
    requires source != target
    requires channels <= source.Length0 && frames <= source.Length1
    requires channels <= target.Length0 && frames <= target.Length1
    modifies target
    ensures View(target, channels, frames) == View(source, channels, frames)
  {
    for c := 0 to channels
      invariant forall k, f :: 0 <= k < c && 0 <= f < frames ==> target[k, f] == source[k, f]
    {
      for f := 0 to frames
        invariant forall k, g :: 0 <= k < c && 0 <= g < frames ==> target[k, g] == source[k, g]
        invariant forall g :: 0 <= g < f ==> target[c, g] == source[c, g]
      {
        target[c, f] := source[c, f];
      }
    }
    SameBlock(View(target, channels, frames), View(source, channels, frames), channels, frames);
  }

  // A plug-in call: it never reads the buffer it writes.
  method CallPlugin(slot: Slot, source: array2<Sample>, target: array2<Sample>, channels: nat, frames: nat)
    returns (ok: bool)
    requires source != target && KeepsShape(slot, channels, frames)
    requires channels <= source.Length0 && frames <= source.Length1
    requires channels <= target.Length0 && frames <= target.Length1
    modifies target
    ensures ok == slot.effect(View(source, channels, frames)).ok
    ensures View(target, channels, frames) == slot.effect(View(source, channels, frames)).written
  {
    var outcome := slot.effect(View(source, channels, frames));
    Fill(target, outcome.written, channels, frames);
    ok := outcome.ok;
  }

  // ---------------------------------------------------------------- the block

  datatype Header = Header(frames: nat, channels: nat, mask: nat)

  predicate ValidHeader(h: Header, regionChannels: nat) {
    && 0 < h.frames <= MAX_FRAMES && 0 < h.channels <= MAX_CHANNELS
    && h.channels == regionChannels && h.mask <= KNOWN_BYPASS_MASK
  }

  predicate Sized(a: array2<Sample>) {
    a.Length0 == MAX_CHANNELS && a.Length1 == MAX_FRAMES
  }

  class RackDsp {
    const input: array2<Sample>
    const output: array2<Sample>
    const ping: array2<Sample>
    const pong: array2<Sample>

    ghost predicate Valid() {
      && Sized(input) && Sized(output) && Sized(ping) && Sized(pong)
      && input != output && input != ping && input != pong && output != ping && output != pong && ping != pong
    }

    constructor (region: array2<Sample>, response: array2<Sample>)
      requires Sized(region) && Sized(response) && region != response
      ensures Valid() && input == region && output == response && fresh(ping) && fresh(pong)
    {
      input, output := region, response;
      ping := new Sample[MAX_CHANNELS, MAX_FRAMES];
      pong := new Sample[MAX_CHANNELS, MAX_FRAMES];
    }

    // The chain over ping and pong.  `current` is where the block is; a slot
    // never writes the buffer it reads, nor the block that came in.
    method RunChain(slots: seq<Slot>, h: Header) returns (current: array2<Sample>, failed: Option<nat>)
      requires Valid() && h.channels <= MAX_CHANNELS && h.frames <= MAX_FRAMES
      requires forall s :: s in slots ==> KeepsShape(s, h.channels, h.frames)
      modifies ping, pong
      ensures current in {input, ping, pong} && Sized(current)
      ensures match Chain(Playing(slots, h.mask), View(input, h.channels, h.frames))
              case Done(b) => failed.None? && View(current, h.channels, h.frames) == b
              case FailedAt(id) => failed == Some(id)
    {
      ghost var whole := Chain(Playing(slots, h.mask), View(input, h.channels, h.frames));
      current, failed := input, None;
      var k := 0;
      while k < |slots|
        invariant k <= |slots| && current in {input, ping, pong} && Sized(current) && failed.None?
        invariant Chain(Playing(slots[k..], h.mask), View(current, h.channels, h.frames)) == whole
      {
        PlayingFrom(slots, k, h.mask);
        if !Bypassed(slots[k].id, h.mask) {
          var next := if current == ping then pong else ping;
          assert next != current && next != input;
          assert slots[k] in slots;
          var ok := CallPlugin(slots[k], current, next, h.channels, h.frames);
          if !ok { return current, Some(slots[k].id); }
          current := next;
        }
        k := k + 1;
      }
    }

    method TotalLatency(slots: seq<Slot>, mask: nat) returns (total: nat)
      ensures total == Latency(Playing(slots, mask)) % TWO_32
    {
      total := 0;
      ghost var sum: nat := 0;
      var k := 0;
      while k < |slots|
        invariant k <= |slots| && total == sum % TWO_32
        invariant sum + Latency(Playing(slots[k..], mask)) == Latency(Playing(slots, mask))
      {
        PlayingFrom(slots, k, mask);
        if !Bypassed(slots[k].id, mask) {
          AddWraps(sum, slots[k].latency);
          total := (total + slots[k].latency) % TWO_32;
          sum := sum + slots[k].latency;
        }
        k := k + 1;
      }
    }

    // All wet or dry: the output is what the whole playing chain makes of the
    // input, or the input itself; the latency is that of the whole playing
    // chain either way.  `acquired` is the generation held for the block.
    method ServeBlock(h: Header, regionChannels: nat, acquired: Option<seq<Slot>>)
      returns (result: Result, latency: nat)
      requires Valid()
      requires acquired.Some? ==> forall s :: s in acquired.value ==> KeepsShape(s, h.channels, h.frames)
      modifies output, ping, pong
      ensures result == InvalidBlock <==> !ValidHeader(h, regionChannels) || acquired.None?
      ensures result == InvalidBlock && h.channels <= MAX_CHANNELS && h.frames <= MAX_FRAMES ==>
        View(output, h.channels, h.frames) == View(input, h.channels, h.frames) && latency == 0
      ensures result != InvalidBlock ==>
        && latency == Latency(Playing(acquired.value, h.mask)) % TWO_32
        && match Chain(Playing(acquired.value, h.mask), View(input, h.channels, h.frames))
           case Done(b) => result == Ok && View(output, h.channels, h.frames) == b
           case FailedAt(id) =>
             result == ErrorFor(id) && View(output, h.channels, h.frames) == View(input, h.channels, h.frames)
      ensures result == Ok ==>
        PassedAll(acquired.value, h.mask, View(input, h.channels, h.frames), View(output, h.channels, h.frames))
      ensures result in {PluginAError, PluginBError, PluginCError} ==>
        && View(output, h.channels, h.frames) == View(input, h.channels, h.frames)
        && exists id :: PassedUpTo(acquired.value, h.mask, View(input, h.channels, h.frames), id)
             && (result == PluginAError <==> id == SLOT_ID_A) && (result == PluginBError <==> id == SLOT_ID_B)
    {
      if h.frames == 0 || h.frames > MAX_FRAMES || h.channels == 0 || h.channels > MAX_CHANNELS
         || h.channels != regionChannels || h.mask > KNOWN_BYPASS_MASK
      {
        Copy(input, output, if h.channels <= MAX_CHANNELS then h.channels else 0,
             if h.frames <= MAX_FRAMES then h.frames else 0);
        return InvalidBlock, 0;
      }
      if acquired.None? {
        Copy(input, output, h.channels, h.frames);
        return InvalidBlock, 0;
      }
      latency := TotalLatency(acquired.value, h.mask);
      ChainIsSlotBySlot(acquired.value, h.mask, View(input, h.channels, h.frames));
      var current, failed := RunChain(acquired.value, h);
      if failed.Some? {
        Copy(input, output, h.channels, h.frames);
        return ErrorFor(failed.value), latency;
      }
      Copy(current, output, h.channels, h.frames);
      result := Ok;
    }
  }
}
