/**
The integrated loudness of src/rack/rack_broadcast_loudness.hpp: 400 ms blocks
of four 100 ms sub-blocks, an absolute gate at -70 LUFS, and a relative gate 10
LU below the mean of what passed it (Annex 1 of ITU-R BS.1770-4), kept in a
histogram of 1000 bins of 0.1 LU.  Over exact reals, with the decimal logarithm
as any increasing function.
 */
module Loudness {
  import opened Wrappers

  const OFFSET: real := -0.691
  const ABSOLUTE_GATE: real := -70.0
  const FLOOR: real := -70.0
  const STEP: real := 0.1
  const BINS: nat := 1000
  const SUBBLOCKS: nat := 4
  const TINY: real := 0.000000000000000000000000000001

  type Log = real -> real

  ghost predicate Increasing(log: Log) {
    forall x, y {:trigger log(x), log(y)} :: 0.0 < x < y ==> log(x) < log(y)
  }

  function Lufs(log: Log, energy: real): real {
    if energy > TINY then OFFSET + 10.0 * log(energy) else -120.0
  }

  function Bounded(lufs: real): real {
    if lufs < FLOOR then FLOOR
    else if lufs > FLOOR + STEP * 999.0 then FLOOR + STEP * 999.0
    else lufs
  }

  function BinOf(lufs: real): (i: nat)
    ensures i < BINS
  {
    var i := ((Bounded(lufs) - FLOOR) / STEP).Floor;
    if i < BINS - 1 then i else BINS - 1
  }

  function Center(i: nat): real {
    FLOOR + (i as real + 0.5) * STEP
  }

  // A bin's centre is within half a step of every block in it, below 30 LUFS.
  lemma CenterIsNear(lufs: real)
    requires ABSOLUTE_GATE <= lufs < 30.0
    ensures -0.05 <= Center(BinOf(lufs)) - lufs <= 0.05
  {
  }

  // ---------------------------------------------------------------- exact gating

  // The energy of the 400 ms window that ends with sub-block k.
  function Window(history: seq<real>, k: nat): real
    requires 3 <= k < |history|
  {
    (history[k - 3] + history[k - 2] + history[k - 1] + history[k]) / 4.0
  }

  // The windows that pass the absolute gate, in order.
  function Passed(log: Log, history: seq<real>): seq<real> {
    if |history| < SUBBLOCKS then []
    else
      var last := Window(history, |history| - 1);
      Passed(log, history[..|history| - 1]) + if Lufs(log, last) < ABSOLUTE_GATE then [] else [last]
  }

  function Sum(blocks: seq<real>): real {
    if blocks == [] then 0.0 else Sum(blocks[..|blocks| - 1]) + blocks[|blocks| - 1]
  }

  // The blocks whose bins are in [lo, hi) and whose bin centre is at or above the gate.
  function Binned(log: Log, blocks: seq<real>, lo: nat, hi: nat, gate: real): seq<real> {
    if blocks == [] then []
    else
      var last := blocks[|blocks| - 1];
      var bin := BinOf(Lufs(log, last));
      Binned(log, blocks[..|blocks| - 1], lo, hi, gate) + if lo <= bin < hi && Center(bin) >= gate then [last] else []
  }

  // The blocks at or above a threshold, without any histogram.
  function AtOrAbove(log: Log, blocks: seq<real>, threshold: real): seq<real> {
    if blocks == [] then []
    else
      var last := blocks[|blocks| - 1];
      AtOrAbove(log, blocks[..|blocks| - 1], threshold) + if Lufs(log, last) >= threshold then [last] else []
  }

  function RelativeGate(log: Log, blocks: seq<real>): real
    requires blocks != []
  {
    var g := Lufs(log, Sum(blocks) / |blocks| as real) - 10.0;
    if ABSOLUTE_GATE > g then ABSOLUTE_GATE else g
  }

  // What the histogram keeps of the blocks: the bins at or above the relative gate.
  function Gated(log: Log, blocks: seq<real>): seq<real>
    requires blocks != []
  {
    Binned(log, blocks, 0, BINS, RelativeGate(log, blocks))
  }

  function MeanLufs(log: Log, blocks: seq<real>): real
    requires blocks != []
  {
    Lufs(log, Sum(blocks) / |blocks| as real)
  }

  // What the meter shows after these sub-blocks: a window that is refused, or
  // after which nothing passes the relative gate, leaves the reading as it was.
  function Reading(log: Log, history: seq<real>): Option<real> {
    if history == [] then None
    else
      var before, blocks := history[..|history| - 1], Passed(log, history);
      if |blocks| > |Passed(log, before)| && Gated(log, blocks) != [] then Some(MeanLufs(log, Gated(log, blocks)))
      else Reading(log, before)
  }

  // Whenever something passes the relative gate, the reading is its mean: never
  // that of an earlier moment.
  lemma {:induction false} ReadingIsGatedMean(log: Log, history: seq<real>)
    requires Passed(log, history) != [] && Gated(log, Passed(log, history)) != []
    ensures Reading(log, history) == Some(MeanLufs(log, Gated(log, Passed(log, history))))
  {
    hide Gated, MeanLufs, Lufs;
    var before := history[..|history| - 1];
    if |Passed(log, history)| == |Passed(log, before)| {
      assert Passed(log, history) == Passed(log, before);
      ReadingIsGatedMean(log, before);
    }
  }

  // ---------------------------------------------------------------- window by window

  // At or above the absolute gate, as an energy.
  ghost predicate Loud(log: Log, energy: real) {
    energy > TINY && OFFSET + 10.0 * log(energy) >= ABSOLUTE_GATE
  }

  // Sub-block k ends a window of four with this mean energy.
  ghost predicate Ends(history: seq<real>, k: nat, energy: real) {
    3 <= k < |history| && energy == (history[k - 3] + history[k - 2] + history[k - 1] + history[k]) / 4.0
  }

  ghost predicate LoudAt(log: Log, history: seq<real>, k: nat) {
    exists energy :: Ends(history, k, energy) && Loud(log, energy)
  }

  // The accepted blocks are exactly the windows that are loud enough, each once
  // and in order.
  ghost predicate Accepts(log: Log, history: seq<real>, ks: seq<nat>, blocks: seq<real>) {
    && |ks| == |blocks|
    && (forall i, j :: 0 <= i < j < |ks| ==> ks[i] < ks[j])
    && (forall k :: k in ks <==> LoudAt(log, history, k))
    && (forall i :: 0 <= i < |ks| ==> Ends(history, ks[i], blocks[i]))
  }

  lemma LoudIsLufs(log: Log, energy: real)
    ensures Loud(log, energy) <==> Lufs(log, energy) >= ABSOLUTE_GATE
  {
  }

  lemma LoudAtIsWindow(log: Log, history: seq<real>, k: nat)
    ensures LoudAt(log, history, k) <==> 3 <= k < |history| && Lufs(log, Window(history, k)) >= ABSOLUTE_GATE
  {
    hide Lufs, Loud;
    if 3 <= k < |history| {
      assert Ends(history, k, Window(history, k));
      LoudIsLufs(log, Window(history, k));
    }
  }

  lemma LoudAtFrame(log: Log, history: seq<real>, k: nat)
    requires k < |history| - 1
    ensures LoudAt(log, history, k) <==> LoudAt(log, history[..|history| - 1], k)
  {
    hide Loud;
    forall energy: real
      ensures Ends(history, k, energy) <==> Ends(history[..|history| - 1], k, energy)
    {
    }
  }

  lemma EndsFrame(history: seq<real>, k: nat, energy: real)
    requires history != [] && Ends(history[..|history| - 1], k, energy)
    ensures Ends(history, k, energy)
  {
  }

  lemma AcceptsMore(log: Log, history: seq<real>, ks: seq<nat>, blocks: seq<real>)
    requires history != [] && Accepts(log, history[..|history| - 1], ks, blocks)
    ensures var k := |history| - 1;
            if LoudAt(log, history, k) then Accepts(log, history, ks + [k], blocks + [Window(history, k)])
            else Accepts(log, history, ks, blocks)
  {
    var before, k := history[..|history| - 1], |history| - 1;
    forall i | 0 <= i < |ks|
      ensures ks[i] in ks && ks[i] < k && Ends(history, ks[i], blocks[i])
    {
      assert Ends(before, ks[i], blocks[i]);
      EndsFrame(history, ks[i], blocks[i]);
    }
    forall i: nat | i < k
      ensures LoudAt(log, history, i) <==> i in ks
    {
      LoudAtFrame(log, history, i);
    }
    assert LoudAt(log, history, k) ==> Ends(history, k, Window(history, k));
    hide Ends, Loud;
    forall i: nat | i > k
      ensures !LoudAt(log, history, i)
    {
      LoudAtIsWindow(log, history, i);
    }
    hide LoudAt;
  }

  lemma PassedMore(log: Log, history: seq<real>)
    requires history != []
    ensures var before, k := history[..|history| - 1], |history| - 1;
            Passed(log, history)
            == if LoudAt(log, history, k) then Passed(log, before) + [Window(history, k)] else Passed(log, before)
  {
    hide Lufs;
    var k := |history| - 1;
    LoudAtIsWindow(log, history, k);
    if k >= 3 && !LoudAt(log, history, k) { NothingAppended(Passed(log, history[..k])); }
  }

  lemma NothingAccepted(log: Log)
    ensures Accepts(log, [], [], Passed(log, []))
  {
    forall k: nat
      ensures !LoudAt(log, [], k)
    {
      LoudAtIsWindow(log, [], k);
    }
  }

  lemma {:induction false} PassedAreTheLoudWindows(log: Log, history: seq<real>) returns (ks: seq<nat>)
    ensures Accepts(log, history, ks, Passed(log, history))
  {
    hide Passed, Accepts, LoudAt;
    if history == [] {
      ks := [];
      NothingAccepted(log);
    } else {
      var before, k := history[..|history| - 1], |history| - 1;
      ks := PassedAreTheLoudWindows(log, before);
      AcceptsMore(log, history, ks, Passed(log, before));
      PassedMore(log, history);
      if LoudAt(log, history, k) { ks := ks + [k]; }
    }
  }

  // A sub-block that ends no loud window leaves the reading as it was.
  lemma QuietChangesNothing(log: Log, history: seq<real>, energy: real)
    requires !LoudAt(log, history + [energy], |history|)
    ensures Reading(log, history + [energy]) == Reading(log, history)
  {
    hide Gated, MeanLufs, Passed, LoudAt;
    var after := history + [energy];
    assert after[..|history|] == history;
    PassedMore(log, after);
  }

  // Nor does one after which nothing passes the relative gate.
  lemma NothingKeptChangesNothing(log: Log, history: seq<real>, energy: real)
    requires var blocks := Passed(log, history + [energy]); blocks != [] && Gated(log, blocks) == []
    ensures Reading(log, history + [energy]) == Reading(log, history)
  {
    hide Gated, MeanLufs, Passed;
    assert (history + [energy])[..|history|] == history;
  }

  // Without a loud window there is no reading.
  lemma {:induction false} SilenceHasNoReading(log: Log, history: seq<real>)
    requires forall k :: 0 <= k < |history| ==> !LoudAt(log, history, k)
    ensures Reading(log, history) == None
  {
    hide Reading;
    if history == [] {
      NoReading(log);
    } else {
      var before, last := history[..|history| - 1], history[|history| - 1];
      forall k | 0 <= k < |before|
        ensures !LoudAt(log, before, k)
      {
        LoudAtFrame(log, history, k);
      }
      SilenceHasNoReading(log, before);
      assert before + [last] == history;
      QuietChangesNothing(log, before, last);
    }
  }

  lemma NoReading(log: Log)
    ensures Reading(log, []) == None
  {
  }

  // Every accepted block is loud enough.
  lemma PassedAreLoud(log: Log, history: seq<real>)
    ensures forall e :: e in Passed(log, history) ==> Loud(log, e) && Lufs(log, e) >= ABSOLUTE_GATE
  {
    hide Passed;
    var ks := PassedAreTheLoudWindows(log, history);
    forall e | e in Passed(log, history)
      ensures Loud(log, e)
    {
      var i :| 0 <= i < |ks| && Passed(log, history)[i] == e;
      assert ks[i] in ks && LoudAt(log, history, ks[i]);
      LoudIsLufs(log, e);
    }
    forall e | e in Passed(log, history)
      ensures Lufs(log, e) >= ABSOLUTE_GATE
    {
      LoudIsLufs(log, e);
    }
  }

  lemma {:induction false} KeptArePassed(log: Log, blocks: seq<real>, gate: real)
    ensures forall e :: e in Binned(log, blocks, 0, BINS, gate) ==> e in blocks
  {
    hide Lufs, BinOf, Center;
    if blocks != [] { KeptArePassed(log, blocks[..|blocks| - 1], gate); }
  }

  lemma {:induction false} SumAbove(blocks: seq<real>, t: real)
    requires blocks != [] && forall e :: e in blocks ==> e > t
    ensures Sum(blocks) > |blocks| as real * t
  {
    var rest, last := blocks[..|blocks| - 1], blocks[|blocks| - 1];
    assert last in blocks && forall e :: e in rest ==> e in blocks;
    if rest == [] {
      NoSum();
    } else {
      SumAbove(rest, t);
      assert |blocks| as real * t == |rest| as real * t + t;
    }
  }

  lemma MeanAbove(sum: real, n: nat, t: real)
    requires n > 0 && sum > n as real * t
    ensures sum / n as real > t
  {
    var mean := sum / n as real;
    assert mean * n as real == sum;
    if mean <= t { assert mean * n as real <= t * n as real; }
  }

  // The reading, as the standard gives it: the loudness of the mean energy of
  // the windows that are kept.
  lemma ReadingIsLoudnessOfMean(log: Log, history: seq<real>)
    requires Passed(log, history) != [] && Gated(log, Passed(log, history)) != []
    ensures var kept := Gated(log, Passed(log, history));
            Reading(log, history) == Some(OFFSET + 10.0 * log(Sum(kept) / |kept| as real))
  {
    hide Binned, Passed, Reading;
    var blocks := Passed(log, history);
    var kept := Gated(log, blocks);
    ReadingIsGatedMean(log, history);
    PassedAreLoud(log, history);
    KeptArePassed(log, blocks, RelativeGate(log, blocks));
    SumAbove(kept, TINY);
    MeanAbove(Sum(kept), |kept|, TINY);
  }

  const NO_GATE: real := FLOOR

  // ---------------------------------------------------------------- bins add up

  lemma SumAppend(blocks: seq<real>, e: real)
    ensures Sum(blocks + [e]) == Sum(blocks) + e
  {
    assert (blocks + [e])[..|blocks|] == blocks;
  }

  lemma {:induction false} BinnedSplits(log: Log, blocks: seq<real>, lo: nat, mid: nat, hi: nat, gate: real)
    requires lo <= mid <= hi
    ensures |Binned(log, blocks, lo, hi, gate)| == |Binned(log, blocks, lo, mid, gate)| + |Binned(log, blocks, mid, hi, gate)|
    ensures Sum(Binned(log, blocks, lo, hi, gate))
         == Sum(Binned(log, blocks, lo, mid, gate)) + Sum(Binned(log, blocks, mid, hi, gate))
  {
    hide BinOf, Center, Lufs, Sum;
    if blocks != [] {
      var rest, last := blocks[..|blocks| - 1], blocks[|blocks| - 1];
      BinnedSplits(log, rest, lo, mid, hi, gate);
      SumAppend(Binned(log, rest, lo, hi, gate), last);
      SumAppend(Binned(log, rest, lo, mid, gate), last);
      SumAppend(Binned(log, rest, mid, hi, gate), last);
      NothingAppended(Binned(log, rest, lo, hi, gate));
      NothingAppended(Binned(log, rest, lo, mid, gate));
      NothingAppended(Binned(log, rest, mid, hi, gate));
    } else {
      NoSum();
    }
  }

  lemma NothingAppended(blocks: seq<real>)
    ensures blocks + [] == blocks
  {
  }

  lemma NoSum()
    ensures Sum([]) == 0.0
  {
  }

  // One bin passes the gate whole or not at all.
  lemma {:induction false} OneBin(log: Log, blocks: seq<real>, i: nat, gate: real)
    requires i < BINS
    ensures Binned(log, blocks, i, i + 1, gate)
         == if Center(i) >= gate then Binned(log, blocks, i, i + 1, NO_GATE) else []
  {
    hide BinOf, Lufs;
    if blocks != [] { OneBin(log, blocks[..|blocks| - 1], i, gate); }
  }

  // Without a gate the bins hold every block.
  lemma {:induction false} AllBins(log: Log, blocks: seq<real>)
    ensures Binned(log, blocks, 0, BINS, NO_GATE) == blocks
  {
    hide Lufs;
    if blocks != [] {
      AllBins(log, blocks[..|blocks| - 1]);
      assert blocks == blocks[..|blocks| - 1] + [blocks[|blocks| - 1]];
    }
  }

  // ---------------------------------------------------------------- the histogram gate against the exact gate

  // A block at least half a step above the gate is kept; one more than half a
  // step below it is not.
  lemma {:induction false} HistogramGateIsNear(log: Log, blocks: seq<real>, e: real, gate: real)
    requires e in blocks && ABSOLUTE_GATE <= Lufs(log, e) < 30.0
    ensures Lufs(log, e) >= gate + 0.05 ==> e in Binned(log, blocks, 0, BINS, gate)
    ensures Lufs(log, e) < gate - 0.05 ==> e !in Binned(log, blocks, 0, BINS, gate)
  {
    hide Lufs, BinOf, Center;
    CenterIsNear(Lufs(log, e));
    if e in blocks[..|blocks| - 1] {
      HistogramGateIsNear(log, blocks[..|blocks| - 1], e, gate);
    } else {
      BinnedComesFrom(log, blocks[..|blocks| - 1], gate, e);
    }
  }

  lemma {:induction false} BinnedComesFrom(log: Log, blocks: seq<real>, gate: real, e: real)
    requires e !in blocks
    ensures e !in Binned(log, blocks, 0, BINS, gate)
  {
    hide Lufs, BinOf, Center;
    if blocks != [] { BinnedComesFrom(log, blocks[..|blocks| - 1], gate, e); }
  }

  lemma {:induction false} BinnedSandwich(log: Log, blocks: seq<real>, gate: real)
    requires forall e :: e in blocks ==> ABSOLUTE_GATE <= Lufs(log, e) < 30.0
    ensures |AtOrAbove(log, blocks, gate + 0.05)| <= |Binned(log, blocks, 0, BINS, gate)|
         <= |AtOrAbove(log, blocks, gate - 0.05)|
  {
    hide Lufs, BinOf, Center;
    if blocks != [] {
      assert blocks[|blocks| - 1] in blocks;
      CenterIsNear(Lufs(log, blocks[|blocks| - 1]));
      BinnedSandwich(log, blocks[..|blocks| - 1], gate);
    }
  }

  // Counted with their repetitions, the kept windows of any history lie between
  // exact gating half a step higher and half a step lower.
  lemma GatingSandwich(log: Log, history: seq<real>, gate: real)
    requires forall e :: e in Passed(log, history) ==> Lufs(log, e) < 30.0
    ensures var blocks := Passed(log, history);
            |AtOrAbove(log, blocks, gate + 0.05)| <= |Binned(log, blocks, 0, BINS, gate)|
         <= |AtOrAbove(log, blocks, gate - 0.05)|
  {
    hide Lufs, Passed;
    PassedAreLoud(log, history);
    BinnedSandwich(log, Passed(log, history), gate);
  }

  // The loudest block is at least as loud as the mean.
  lemma {:induction false} LoudestIsAboveMean(blocks: seq<real>) returns (e: real)
    requires blocks != []
    ensures e in blocks && Sum(blocks) <= |blocks| as real * e
  {
    var rest, last := blocks[..|blocks| - 1], blocks[|blocks| - 1];
    if rest == [] {
      e := last;
      NoSum();
      assert Sum(blocks) == Sum(rest) + last;
    } else {
      var other := LoudestIsAboveMean(rest);
      e := if other < last then last else other;
      assert |rest| as real * other <= |rest| as real * e;
      assert |blocks| as real * e == |rest| as real * e + e;
    }
  }

  lemma MeanAtMost(sum: real, n: nat, e: real)
    requires n > 0 && sum <= n as real * e
    ensures sum / n as real <= e
  {
    var mean := sum / n as real;
    assert mean * n as real == sum;
    if mean > e { assert mean * n as real > e * n as real; }
  }

  // The top bin also holds everything louder than it.
  lemma TopBin(lufs: real)
    requires lufs >= 30.0
    ensures Center(BinOf(lufs)) == 29.95
  {
    assert Bounded(lufs) == 29.9;
    assert BinOf(lufs) == 999;
  }

  lemma {:induction false} KeptBelowTop(log: Log, blocks: seq<real>, gate: real)
    requires Binned(log, blocks, 0, BINS, gate) != []
    ensures gate <= 29.95
  {
    hide Lufs, BinOf;
    var last := blocks[|blocks| - 1];
    if Center(BinOf(Lufs(log, last))) < gate { KeptBelowTop(log, blocks[..|blocks| - 1], gate); }
  }

  lemma KeptUnlessTooLoud(log: Log, blocks: seq<real>)
    requires Increasing(log) && blocks != [] && forall e :: e in blocks ==> ABSOLUTE_GATE <= Lufs(log, e)
    ensures Gated(log, blocks) != [] <==> Lufs(log, Sum(blocks) / |blocks| as real) <= 39.95
  {
    hide Lufs, BinOf, Center, Binned, Sum;
    var mean := Sum(blocks) / |blocks| as real;
    var gate := RelativeGate(log, blocks);
    if Gated(log, blocks) != [] { KeptBelowTop(log, blocks, gate); }
    var e := LoudestIsAboveMean(blocks);
    MeanAtMost(Sum(blocks), |blocks|, e);
    LouderWithEnergy(log, mean, e);
    LoudestBinPasses(Lufs(log, e), Lufs(log, mean));
    if Lufs(log, mean) <= 39.95 { KeptIfBinPasses(log, blocks, e, gate); }
  }

  // Once a window is accepted something passes the relative gate, exactly when
  // the mean is not louder than 39.95 LUFS: beyond that the top bin is gated out too.
  lemma GatedUnlessTooLoud(log: Log, history: seq<real>)
    requires Increasing(log) && Passed(log, history) != []
    ensures var blocks := Passed(log, history);
            Gated(log, blocks) != [] <==> Lufs(log, Sum(blocks) / |blocks| as real) <= 39.95
  {
    hide Lufs, Passed, Gated, Sum;
    PassedAreLoud(log, history);
    KeptUnlessTooLoud(log, Passed(log, history));
  }

  lemma {:induction false} NoWindowYet(log: Log, history: seq<real>)
    requires |history| < SUBBLOCKS
    ensures Reading(log, history) == None
  {
    if history != [] { NoWindowYet(log, history[..|history| - 1]); }
  }

  // Four sub-blocks louder than that fill an accepted window, and nothing of it
  // passes: a meter that has shown nothing so far still shows nothing.
  lemma TooLoudShowsNothing(log: Log, e: real)
    requires Increasing(log) && Lufs(log, e) > 39.95
    ensures Passed(log, [e, e, e, e]) == [e] && Gated(log, [e]) == []
    ensures Reading(log, [e, e, e, e]) == None
  {
    hide Gated, Lufs;
    var h := [e, e, e, e];
    assert Window(h, 3) == e;
    assert Passed(log, h[..3]) == [] && Passed(log, h) == [] + [e];
    assert Sum([e]) == e by { SumAppend([], e); assert [] + [e] == [e]; NoSum(); }
    assert Sum([e]) / |[e]| as real == e;
    KeptUnlessTooLoud(log, [e]);
    NoWindowYet(log, h[..3]);
  }

  lemma LouderWithEnergy(log: Log, a: real, b: real)
    requires Increasing(log) && a <= b && Lufs(log, b) >= ABSOLUTE_GATE
    ensures Lufs(log, a) <= Lufs(log, b)
  {
  }

  lemma LoudestBinPasses(loudest: real, mean: real)
    requires ABSOLUTE_GATE <= loudest && mean <= loudest
    ensures mean <= 39.95 ==> Center(BinOf(loudest)) >= mean - 10.0 && Center(BinOf(loudest)) >= ABSOLUTE_GATE
  {
    hide BinOf;
    if loudest < 30.0 { CenterIsNear(loudest); } else { TopBin(loudest); }
    CenterAboveFloor(BinOf(loudest));
  }

  lemma CenterAboveFloor(i: nat)
    ensures Center(i) > ABSOLUTE_GATE
  {
  }

  lemma {:induction false} KeptIfBinPasses(log: Log, blocks: seq<real>, e: real, gate: real)
    requires e in blocks && Center(BinOf(Lufs(log, e))) >= gate
    ensures e in Binned(log, blocks, 0, BINS, gate)
  {
    hide Lufs, BinOf, Center;
    if e in blocks[..|blocks| - 1] { KeptIfBinPasses(log, blocks[..|blocks| - 1], e, gate); }
  }

  // ---------------------------------------------------------------- the meter

  class Meter {
    const log: Log
    const subblockFrames: nat
    var energySum: real
    var frameCount: nat
    const subblocks: array<real>
    var writeIndex: nat
    var completed: nat
    const counts: array<nat>
    const sums: array<real>
    var integrated: real
    var valid: bool
    // Every sub-block finished so far.
    ghost var history: seq<real>

    // The ring holds the last four sub-blocks, each bin the count and the
    // energy of exactly the accepted windows that fall into it, and the meter
    // shows the reading of the whole history.
    ghost predicate Valid()
      reads this, subblocks, counts, sums
    {
      Shaped() && frameCount < subblockFrames && RingHolds(history) && BinsHold(Passed(log, history)) && Shows(history)
    }

    ghost predicate Shows(h: seq<real>)
      reads this`integrated, this`valid
    {
      match Reading(log, h)
      case None => !valid && integrated == -120.0
      case Some(lufs) => valid && integrated == lufs
    }

    ghost predicate Shaped() {
      && subblocks.Length == SUBBLOCKS && counts.Length == BINS && sums.Length == BINS && 0 < subblockFrames
      && counts as object != sums && subblocks != sums && subblocks as object != counts
    }

    ghost predicate RingHolds(h: seq<real>)
      reads this`writeIndex, this`completed, subblocks
    {
      && subblocks.Length == SUBBLOCKS
      && writeIndex == |h| % SUBBLOCKS
      && completed == (if |h| < SUBBLOCKS then |h| else SUBBLOCKS)
      && forall j :: 0 <= j < |h| && |h| - SUBBLOCKS <= j ==> subblocks[j % SUBBLOCKS] == h[j]
    }

    ghost predicate BinsHold(blocks: seq<real>)
      reads counts, sums
    {
      && counts.Length == BINS && sums.Length == BINS
      && forall i :: 0 <= i < BINS ==> BinHolds(blocks, i)
    }

    ghost predicate BinHolds(blocks: seq<real>, i: nat)
      requires counts.Length == BINS && sums.Length == BINS && i < BINS
      reads counts, sums
    {
      && counts[i] == |Binned(log, blocks, i, i + 1, NO_GATE)|
      && sums[i] == Sum(Binned(log, blocks, i, i + 1, NO_GATE))
    }

    // update_integrated_loudness, given the accepted windows.
    method UpdateIntegratedLoudness(ghost blocks: seq<real>)
      requires BinsHold(blocks)
      modifies this`integrated, this`valid
      ensures blocks == [] || Gated(log, blocks) == [] ==> integrated == old(integrated) && valid == old(valid)
      ensures blocks != [] && Gated(log, blocks) != [] ==>
        valid && integrated == MeanLufs(log, Gated(log, blocks))
    {
      hide Binned, Sum, Lufs;
      var count: nat, energy := 0, 0.0;
      var i := 0;
      NoBins(log, blocks, NO_GATE);
      while i < BINS
        invariant i <= BINS && BinsHold(blocks) && integrated == old(integrated) && valid == old(valid)
        invariant count == |Binned(log, blocks, 0, i, NO_GATE)| && energy == Sum(Binned(log, blocks, 0, i, NO_GATE))
      {
        assert BinHolds(blocks, i);
        BinnedSplits(log, blocks, 0, i, i + 1, NO_GATE);
        count := count + counts[i];
        energy := energy + sums[i];
        i := i + 1;
      }
      AllBins(log, blocks);
      if count == 0 { return; }
      var mean := energy / count as real;
      var g := Lufs(log, mean) - 10.0;
      var gate := if ABSOLUTE_GATE > g then ABSOLUTE_GATE else g;
      var gatedCount: nat, gatedEnergy := 0, 0.0;
      i := 0;
      NoBins(log, blocks, gate);
      while i < BINS
        invariant i <= BINS && BinsHold(blocks) && integrated == old(integrated) && valid == old(valid)
        invariant gatedCount == |Binned(log, blocks, 0, i, gate)| && gatedEnergy == Sum(Binned(log, blocks, 0, i, gate))
      {
        assert BinHolds(blocks, i);
        BinnedSplits(log, blocks, 0, i, i + 1, gate);
        OneBin(log, blocks, i, gate);
        NoSum();
        if Center(i) >= gate {
          gatedCount := gatedCount + counts[i];
          gatedEnergy := gatedEnergy + sums[i];
        }
        i := i + 1;
      }
      if gatedCount == 0 { return; }
      integrated := Lufs(log, gatedEnergy / gatedCount as real);
      valid := true;
    }

    constructor (log: Log, subblockFrames: nat)
      requires 0 < subblockFrames
      ensures Valid() && fresh(subblocks) && fresh(counts) && fresh(sums)
      ensures this.log == log && history == [] && !valid
    {
      this.log, this.subblockFrames := log, subblockFrames;
      energySum, frameCount, writeIndex, completed := 0.0, 0, 0, 0;
      subblocks := new real[SUBBLOCKS](_ => 0.0);
      counts := new nat[BINS](_ => 0);
      sums := new real[BINS](_ => 0.0);
      integrated, valid, history := -120.0, false, [];
    }

    // Four entries of the ring, in whatever order it holds them, are the last window.
    lemma RingIsWindow()
      requires RingHolds(history) && |history| >= SUBBLOCKS
      ensures (subblocks[0] + subblocks[1] + subblocks[2] + subblocks[3]) / 4.0 == Window(history, |history| - 1)
    {
      var n := |history|;
      assert subblocks[(n - 4) % SUBBLOCKS] == history[n - 4] && subblocks[(n - 3) % SUBBLOCKS] == history[n - 3];
      assert subblocks[(n - 2) % SUBBLOCKS] == history[n - 2] && subblocks[(n - 1) % SUBBLOCKS] == history[n - 1];
    }

    // The three sub-blocks before the new one stand elsewhere in the ring.
    static lemma OtherEntry(j: nat, n: nat)
      requires n - 3 <= j < n
      ensures j % SUBBLOCKS != n % SUBBLOCKS
    {
    }

    static lemma NextEntry(n: nat)
      ensures (n % SUBBLOCKS + 1) % SUBBLOCKS == (n + 1) % SUBBLOCKS
    {
    }

    method PushSubblock(energy: real)
      requires Shaped() && RingHolds(history)
      modifies this`writeIndex, this`completed, this`history, subblocks
      ensures history == old(history) + [energy] && RingHolds(history)
      ensures completed < SUBBLOCKS <==> |history| < SUBBLOCKS
    {
      ghost var was, n := subblocks[..], |history|;
      NextEntry(n);
      subblocks[writeIndex] := energy;
      writeIndex := (writeIndex + 1) % SUBBLOCKS;
      completed := if completed + 1 < SUBBLOCKS then completed + 1 else SUBBLOCKS;
      history := history + [energy];
      forall j | 0 <= j < n && n + 1 - SUBBLOCKS <= j
        ensures subblocks[j % SUBBLOCKS] == history[j]
      {
        OtherEntry(j, n);
        assert was[j % SUBBLOCKS] == history[j];
      }
    }

    method AcceptBlock(e: real, ghost blocks: seq<real>)
      requires Shaped() && BinsHold(blocks)
      modifies counts, sums
      ensures BinsHold(blocks + [e])
    {
      hide Lufs, BinOf, Binned, Sum;
      var bin := BinOf(Lufs(log, e));
      counts[bin] := counts[bin] + 1;
      sums[bin] := sums[bin] + e;
      forall i | 0 <= i < BINS
        ensures BinHolds(blocks + [e], i)
      {
        assert old(BinHolds(blocks, i));
        BinnedAppend(log, blocks, e, i);
        SumAppend(Binned(log, blocks, i, i + 1, NO_GATE), e);
        NothingAppended(Binned(log, blocks, i, i + 1, NO_GATE));
      }
    }

    method FinishSubblock()
      requires Shaped() && RingHolds(history) && BinsHold(Passed(log, history)) && Shows(history)
      modifies this, subblocks, counts, sums
      ensures Valid()
      ensures history == old(history) + [old(energySum) / (if old(frameCount) > 1 then old(frameCount) else 1) as real]
    {
      hide Lufs, Binned, BinOf, Window, Gated, RingHolds, BinsHold, MeanLufs;
      var energy := energySum / (if frameCount > 1 then frameCount else 1) as real;
      energySum, frameCount := 0.0, 0;
      PushSubblock(energy);
      assert history[..|history| - 1] == old(history);
      if completed < SUBBLOCKS { return; }
      var total, k := 0.0, 0;
      while k < SUBBLOCKS
        invariant k <= SUBBLOCKS
        invariant total == (if k > 0 then subblocks[0] else 0.0) + (if k > 1 then subblocks[1] else 0.0)
                           + (if k > 2 then subblocks[2] else 0.0) + (if k > 3 then subblocks[3] else 0.0)
      {
        total := total + subblocks[k];
        k := k + 1;
      }
      var block := total / 4.0;
      RingIsWindow();
      if Lufs(log, block) < ABSOLUTE_GATE {
        assert Passed(log, old(history)) + [] == Passed(log, old(history));
        return;
      }
      AcceptBlock(block, Passed(log, old(history)));
      UpdateIntegratedLoudness(Passed(log, history));
    }

    // One frame of process, `weighted` being its K-weighted square.
    method AddFrame(weighted: real)
      requires Valid()
      modifies this, subblocks, counts, sums
      ensures Valid()
      ensures old(frameCount) + 1 < subblockFrames ==>
        history == old(history) && energySum == old(energySum) + weighted && frameCount == old(frameCount) + 1
      ensures old(frameCount) + 1 == subblockFrames ==>
        history == old(history) + [(old(energySum) + weighted) / subblockFrames as real]
    {
      hide Passed, Gated, Reading;
      energySum := energySum + weighted;
      frameCount := frameCount + 1;
      if frameCount >= subblockFrames { FinishSubblock(); }
    }
  }

  lemma BinnedAppend(log: Log, blocks: seq<real>, e: real, i: nat)
    requires i < BINS
    ensures Binned(log, blocks + [e], i, i + 1, NO_GATE)
         == Binned(log, blocks, i, i + 1, NO_GATE) + if BinOf(Lufs(log, e)) == i then [e] else []
  {
    hide Lufs, BinOf;
    assert (blocks + [e])[..|blocks|] == blocks;
    CenterAboveFloor(i);
  }

  lemma {:induction false} NoBins(log: Log, blocks: seq<real>, gate: real)
    ensures Binned(log, blocks, 0, 0, gate) == [] && Sum(Binned(log, blocks, 0, 0, gate)) == 0.0
  {
    hide Lufs, BinOf;
    if blocks != [] { NoBins(log, blocks[..|blocks| - 1], gate); }
  }
}
