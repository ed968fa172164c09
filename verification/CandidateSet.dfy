/** The candidates of a channel: its enabled keys, narrowed to the rotation band or the first live one ahead. */
module CandidateSet {
  import opened Common
  import opened ChannelModel
  import opened SettingsModel
  import opened Rotation
  import opened Windows

  datatype BandInfo = BandInfo(index: int, endsAt: int)

  ghost predicate LiveInBand(ch: Channel, batches: seq<seq<int>>, band: int, overlap: int)
    requires batches != []
  {
    exists k :: KeyEnabled(ch, k) && InBand(batches, band, overlap, k)
  }

  ghost predicate LiveAt(ch: Channel, batches: seq<seq<int>>, band: int, step: int)
    requires batches != []
  {
    exists k :: KeyEnabled(ch, k) && InBatchAhead(batches, band, step, k)
  }

  /** The first step ahead whose batch holds an enabled key. */
  ghost predicate LeastStep(ch: Channel, batches: seq<seq<int>>, band: int, step: int)
    requires batches != []
  {
    && 1 <= step <= |batches|
    && LiveAt(ch, batches, band, step)
    && forall s :: 1 <= s < step ==> !LiveAt(ch, batches, band, s)
  }

  /** The batches of a channel with a rotation, and the number of the band at a time. */
  function BatchesOf(ch: Channel, cfg: RotationCfg, swaps: seq<(nat, nat)>): seq<seq<int>>
    requires InRange(swaps, |ch.keys|)
  {
    Batches(cfg, |ch.keys|, swaps)
  }

  /** The snapshot holds a rotation of the channel with a positive band length and batch size. */
  predicate Rotates(st: Option<Settings>, cid: int) {
    && st.Some? && cid in st.value.rotation
    && st.value.rotation[cid].bandSeconds > 0 && st.value.rotation[cid].activeCount > 0
  }

  /**
   * A candidate is an enabled key that no rotation holds back: in the current band or its
   * overlap, or, when no enabled key is, in the first live batch ahead.
   */
  ghost predicate Candidate(ch: Channel, st: Option<Settings>, now: nat, swaps: seq<(nat, nat)>, k: int)
    requires InRange(swaps, |ch.keys|)
  {
    && KeyEnabled(ch, k)
    && (Rotates(st, ch.id) ==>
          var cfg := st.value.rotation[ch.id];
          var bs, band := BatchesOf(ch, cfg, swaps), now / cfg.bandSeconds;
          && bs != []
          && if LiveInBand(ch, bs, band, cfg.overlapBands) then InBand(bs, band, cfg.overlapBands, k)
             else exists step :: LeastStep(ch, bs, band, step) && InBatchAhead(bs, band, step, k))
  }

  /** Going a whole number of cycles ahead or back is the same batch. */
  lemma AheadIsBack(batches: seq<seq<int>>, band: int, step: int, k: int)
    requires batches != []
    ensures InBatchAhead(batches, band, step, k) <==> InBatchBack(batches, band, |batches| - step, k)
  {
    ModShift(band - (|batches| - step), |batches|);
    assert band - (|batches| - step) + |batches| == band + step;
  }

  /** When the band is dead, a live batch is found before the search comes round to the overlap. */
  lemma StepMissesOverlap(ch: Channel, batches: seq<seq<int>>, band: int, overlap: int, step: int)
    requires batches != [] && !LiveInBand(ch, batches, band, overlap) && LeastStep(ch, batches, band, step)
    ensures step + Max(overlap, 0) < |batches|
  {
    if step + Max(overlap, 0) >= |batches| {
      var k :| KeyEnabled(ch, k) && InBatchAhead(batches, band, step, k);
      AheadIsBack(batches, band, step, k);
      assert InBand(batches, band, overlap, k);
    }
  }

  /** Every key is in some batch ahead, at most one cycle away. */
  lemma SomeStepReaches(batches: seq<seq<int>>, band: int, q: int, k: int) returns (step: int)
    requires OnlyIn(batches, q, k)
    ensures 1 <= step <= |batches| && InBatchAhead(batches, band, step, k)
  {
    var n := |batches|;
    var d := (q - band) % n;
    step := if d == 0 then n else d;
    ModOfSum(band, q, d, n);
    ModShift(band, n);
  }

  lemma ModOfSum(band: int, q: int, d: int, n: int)
    requires n > 0 && 0 <= q < n && d == (q - band) % n
    ensures (band + d) % n == q
  {
    var x := (q - band) / n;
    assert q - band == n * x + d;
    assert n * (-x) == -(n * x);
    ModUnique(band + d, n, -x, q);
  }

  lemma LeastStepUnique(ch: Channel, batches: seq<seq<int>>, band: int, s: int, t: int)
    requires batches != [] && LeastStep(ch, batches, band, s) && LeastStep(ch, batches, band, t)
    ensures s == t
  {
  }

  lemma {:induction false} LeastStepExists(ch: Channel, batches: seq<seq<int>>, band: int, step: int) returns (least: int)
    requires batches != [] && 1 <= step <= |batches| && LiveAt(ch, batches, band, step)
    ensures LeastStep(ch, batches, band, least)
    decreases step
  {
    if s :| 1 <= s < step && LiveAt(ch, batches, band, s) {
      least := LeastStepExists(ch, batches, band, s);
    } else {
      least := step;
    }
  }

  /** Rotation never hides the last live key, and never brings back a dead one. */
  lemma CandidateIffLive(ch: Channel, st: Option<Settings>, now: nat, swaps: seq<(nat, nat)>)
    requires InRange(swaps, |ch.keys|)
    ensures (exists k :: Candidate(ch, st, now, swaps, k)) <==> SomeKeyEnabled(ch)
  {
    SomeEnabledMeans(ch);
    if SomeKeyEnabled(ch) {
      var k :| KeyEnabled(ch, k);
      if !Rotates(st, ch.id) {
        assert Candidate(ch, st, now, swaps, k);
      } else {
        LiveKeyReached(ch, st, now, swaps, k);
      }
    }
  }

  lemma LiveKeyReached(ch: Channel, st: Option<Settings>, now: nat, swaps: seq<(nat, nat)>, k: int)
    requires InRange(swaps, |ch.keys|) && KeyEnabled(ch, k) && Rotates(st, ch.id)
    ensures exists c :: Candidate(ch, st, now, swaps, c)
  {
    var cfg := st.value.rotation[ch.id];
    var bs, band := BatchesOf(ch, cfg, swaps), now / cfg.bandSeconds;
    BatchesPartition(cfg, |ch.keys|, swaps);
    assert OnceIn(bs, k);
    var q :| 0 <= q < |bs| && OnlyIn(bs, q, k);
    var c;
    if LiveInBand(ch, bs, band, cfg.overlapBands) {
      c :| KeyEnabled(ch, c) && InBand(bs, band, cfg.overlapBands, c);
    } else {
      var step := SomeStepReaches(bs, band, q, k);
      var least := LeastStepExists(ch, bs, band, step);
      c :| KeyEnabled(ch, c) && InBatchAhead(bs, band, least, c);
    }
    assert Candidate(ch, st, now, swaps, c);
  }

  lemma BandEndsLater(now: nat, seconds: int, steps: nat)
    requires seconds > 0
    ensures var endsAt := (now / seconds + steps + 1) * seconds;
            endsAt % seconds == 0 && endsAt - (steps + 1) * seconds <= now < endsAt - steps * seconds
  {
    var b := now / seconds;
    assert now == seconds * b + now % seconds;
    assert (b + steps + 1) * seconds == seconds * b + seconds + steps * seconds;
    assert (steps + 1) * seconds == steps * seconds + seconds;
    ModUnique((b + steps + 1) * seconds, seconds, b + steps + 1, 0);
  }

  /** Key k's batch is the current one or at most overlapBands behind it, counted round the batches in index order. */
  predicate InWindow(ch: Channel, cfg: RotationCfg, now: nat, k: int) {
    cfg.activeCount > 0 && cfg.bandSeconds > 0 && 0 <= k < |ch.keys|
    && var count := (|ch.keys| + cfg.activeCount - 1) / cfg.activeCount;
       count > 0 && (now / cfg.bandSeconds - k / cfg.activeCount) % count <= Max(cfg.overlapBands, 0)
  }

  /** With keys in index order, a channel whose window holds a live key offers exactly the live keys of the window. */
  lemma CandidateByIndex(ch: Channel, st: Option<Settings>, now: nat, swaps: seq<(nat, nat)>, live: int, k: int)
    requires InRange(swaps, |ch.keys|) && Rotates(st, ch.id) && st.value.rotation[ch.id].order != "shuffle"
    requires KeyEnabled(ch, live) && InWindow(ch, st.value.rotation[ch.id], now, live)
    ensures Candidate(ch, st, now, swaps, k) <==> KeyEnabled(ch, k) && InWindow(ch, st.value.rotation[ch.id], now, k)
  {
    var cfg := st.value.rotation[ch.id];
    InBandByIndex(cfg, |ch.keys|, swaps, now / cfg.bandSeconds, live);
    if 0 <= k < |ch.keys| {
      InBandByIndex(cfg, |ch.keys|, swaps, now / cfg.bandSeconds, k);
    }
  }

  /** The set-filling loop over the enabled indexes. */
  method SetOf(indexes: seq<int>) returns (s: set<int>)
    ensures forall k :: k in s <==> k in indexes
  {
    s := {};
    for i := 0 to |indexes|
      invariant forall k :: k in s <==> k in indexes[..i]
    {
      assert forall k :: k in indexes[..i + 1] <==> k in indexes[..i] || k == indexes[i];
      s := s + {indexes[i]};
    }
    assert indexes[..|indexes|] == indexes;
  }

  /** The band a search that went steps ahead reports. */
  function BandAt(cfg: RotationCfg, batchCount: nat, cur: nat, steps: nat): BandInfo
    requires batchCount > 0
  {
    BandInfo((cur + steps) % batchCount, (cur + steps + 1) * cfg.bandSeconds)
  }

  /** What the caller learns about the rotation beside the candidates. */
  ghost predicate BandReported(ch: Channel, cfg: RotationCfg, now: nat, swaps: seq<(nat, nat)>, cands: seq<int>, band: Option<BandInfo>, steps: nat)
    requires InRange(swaps, |ch.keys|) && cfg.bandSeconds > 0
  {
    var bs, cur := BatchesOf(ch, cfg, swaps), now / cfg.bandSeconds;
    && bs != []
    && band.Some?
    && band.value.index == (cur + steps) % |bs|
    && band.value.endsAt % cfg.bandSeconds == 0
    && band.value.endsAt - (steps + 1) * cfg.bandSeconds <= now < band.value.endsAt - steps * cfg.bandSeconds
    && (steps == 0 <==> LiveInBand(ch, bs, cur, cfg.overlapBands) || cands == [])
    && (steps > 0 ==>
          && LeastStep(ch, bs, cur, steps)
          && steps + Max(cfg.overlapBands, 0) < |bs|
          && forall k :: k in cands <==> KeyEnabled(ch, k) && k in bs[band.value.index])
  }

  /**
   * The candidates in ascending order, with the band they come from. They are empty exactly
   * when no key is enabled: rotation never hides the last live key.
   */
  method Candidates(ch: Channel, st: Option<Settings>, now: nat, swaps: seq<(nat, nat)>)
    returns (cands: seq<int>, band: Option<BandInfo>, steps: nat)
    requires InRange(swaps, |ch.keys|)
    ensures Ascending(cands)
    ensures forall k :: k in cands <==> Candidate(ch, st, now, swaps, k)
    ensures cands != [] <==> SomeKeyEnabled(ch)
    ensures !Rotates(st, ch.id) ==> band.None? && steps == 0
    ensures Rotates(st, ch.id) && ch.keys != [] ==>
              BandReported(ch, st.value.rotation[ch.id], now, swaps, cands, band, steps)
  {
    var enabled := EnabledKeyIndexes(ch);
    SomeEnabledMeans(ch);
    var cfg := RotationCfgOf(st, ch.id);
    if cfg.None? {
      return enabled, None, 0;
    }
    var batches := BuildBatches(cfg.value, |ch.keys|, swaps);
    SomeBatch(cfg.value, |ch.keys|, swaps);
    if |batches| == 0 {
      return [], Some(BandInfo(0, 0)), 0;
    }
    assert ch.keys != [];
    cands, band, steps := Rotated(ch, cfg.value, enabled, batches, now, swaps);
    if cands != [] {
      assert cands[0] in cands;
    }
  }

  method Rotated(ch: Channel, cfg: RotationCfg, enabled: seq<int>, batches: seq<seq<int>>, now: nat, swaps: seq<(nat, nat)>)
    returns (cands: seq<int>, band: Option<BandInfo>, steps: nat)
    requires InRange(swaps, |ch.keys|) && cfg.bandSeconds > 0 && cfg.activeCount >= 1 && ch.keys != []
    requires forall k :: k in enabled <==> KeyEnabled(ch, k)
    requires batches == BatchesOf(ch, cfg, swaps) && batches != []
    ensures Ascending(cands)
    ensures var cur := now / cfg.bandSeconds;
            if LiveInBand(ch, batches, cur, cfg.overlapBands) then
              forall k :: k in cands <==> KeyEnabled(ch, k) && InBand(batches, cur, cfg.overlapBands, k)
            else
              forall k :: k in cands <==>
                KeyEnabled(ch, k) && exists s :: LeastStep(ch, batches, cur, s) && InBatchAhead(batches, cur, s, k)
    ensures cands == [] ==> forall k :: !KeyEnabled(ch, k)
    ensures BandReported(ch, cfg, now, swaps, cands, band, steps)
  {
    var bandNum := now / cfg.bandSeconds;
    var enabledSet := SetOf(enabled);
    cands := BandCandidates(batches, enabledSet, bandNum, cfg.overlapBands);
    steps := 0;
    if |cands| == 0 {
      assert !LiveInBand(ch, batches, bandNum, cfg.overlapBands) by {
        assert forall k :: KeyEnabled(ch, k) && InBand(batches, bandNum, cfg.overlapBands, k) ==> k in cands;
      }
      cands, steps := Lookahead(batches, enabledSet, bandNum);
      SearchFinds(ch, cfg, swaps, bandNum, enabledSet, cands, steps);
    } else {
      assert cands[0] in cands;
      assert KeyEnabled(ch, cands[0]) && InBand(batches, bandNum, cfg.overlapBands, cands[0]);
    }
    band := Some(BandAt(cfg, |batches|, bandNum, steps));
    BandFacts(ch, cfg, now, swaps, batches, bandNum, cands, steps);
  }

  lemma BandFacts(ch: Channel, cfg: RotationCfg, now: nat, swaps: seq<(nat, nat)>, bs: seq<seq<int>>, cur: nat, cands: seq<int>, steps: nat)
    requires InRange(swaps, |ch.keys|) && cfg.bandSeconds > 0 && cur == now / cfg.bandSeconds
    requires bs == BatchesOf(ch, cfg, swaps) && bs != []
    requires steps == 0 <==> LiveInBand(ch, bs, cur, cfg.overlapBands) || cands == []
    requires steps > 0 ==>
               && LeastStep(ch, bs, cur, steps)
               && steps + Max(cfg.overlapBands, 0) < |bs|
               && forall k :: k in cands <==> KeyEnabled(ch, k) && InBatchAhead(bs, cur, steps, k)
    ensures BandReported(ch, cfg, now, swaps, cands, Some(BandAt(cfg, |bs|, cur, steps)), steps)
  {
    BandEndsLater(now, cfg.bandSeconds, steps);
    assert forall k :: InBatchAhead(bs, cur, steps, k) <==> k in bs[(cur + steps) % |bs|];
  }

  lemma SomeBatch(cfg: RotationCfg, n: nat, swaps: seq<(nat, nat)>)
    requires InRange(swaps, n) && cfg.activeCount >= 1
    ensures Batches(cfg, n, swaps) == [] <==> n == 0
  {
    BatchesPartition(cfg, n, swaps);
    if n > 0 {
      assert OnceIn(Batches(cfg, n, swaps), 0);
    }
  }

  lemma SomeEnabledMeans(ch: Channel)
    ensures SomeKeyEnabled(ch) <==> exists k :: KeyEnabled(ch, k)
  {
    assert forall i :: EnabledAt(|ch.keys|, ch.info.statusList, i) == KeyEnabled(ch, i);
  }

  /** What the search ahead gives when the band is dead. */
  lemma SearchFinds(ch: Channel, cfg: RotationCfg, swaps: seq<(nat, nat)>, band: int, enabled: set<int>, cands: seq<int>, steps: nat)
    requires InRange(swaps, |ch.keys|) && cfg.activeCount >= 1 && ch.keys != []
    requires BatchesOf(ch, cfg, swaps) != []
    requires forall k :: k in enabled <==> KeyEnabled(ch, k)
    requires !LiveInBand(ch, BatchesOf(ch, cfg, swaps), band, cfg.overlapBands)
    requires var bs := BatchesOf(ch, cfg, swaps);
             if steps == 0 then cands == [] && forall s :: 1 <= s <= |bs| ==> !LiveAhead(bs, enabled, band, s)
             else && steps <= |bs| && cands != []
                  && (forall s :: 1 <= s < steps ==> !LiveAhead(bs, enabled, band, s))
                  && (Distinct(bs[(band + steps) % |bs|]) ==> Ascending(cands))
                  && forall k :: k in cands <==> k in enabled && InBatchAhead(bs, band, steps, k)
    ensures Ascending(cands)
    ensures var bs := BatchesOf(ch, cfg, swaps);
            && (steps == 0 ==> forall k :: !KeyEnabled(ch, k))
            && (steps > 0 ==> LeastStep(ch, bs, band, steps) && steps + Max(cfg.overlapBands, 0) < |bs|)
            && (steps > 0 ==> forall k :: k in cands <==> KeyEnabled(ch, k) && InBatchAhead(bs, band, steps, k))
            && (forall k :: k in cands <==> KeyEnabled(ch, k) && exists s :: LeastStep(ch, bs, band, s) && InBatchAhead(bs, band, s, k))
  {
    var bs := BatchesOf(ch, cfg, swaps);
    BatchesPartition(cfg, |ch.keys|, swaps);
    assert forall s :: LiveAt(ch, bs, band, s) <==> LiveAhead(bs, enabled, band, s);
    if steps == 0 {
      forall k
        ensures !KeyEnabled(ch, k)
      {
        if KeyEnabled(ch, k) {
          assert OnceIn(bs, k);
          var q :| 0 <= q < |bs| && OnlyIn(bs, q, k);
          var s := SomeStepReaches(bs, band, q, k);
          assert LiveAhead(bs, enabled, band, s);
        }
      }
    } else {
      assert cands[0] in cands;
      assert KeyEnabled(ch, cands[0]) && InBatchAhead(bs, band, steps, cands[0]);
      assert LiveAt(ch, bs, band, steps);
      assert LeastStep(ch, bs, band, steps);
      StepMissesOverlap(ch, bs, band, cfg.overlapBands, steps);
      BatchDistinct(cfg, |ch.keys|, swaps, (band + steps) % |bs|);
      forall k
        ensures k in cands <==> KeyEnabled(ch, k) && exists s :: LeastStep(ch, bs, band, s) && InBatchAhead(bs, band, s, k)
      {
        if s :| LeastStep(ch, bs, band, s) && InBatchAhead(bs, band, s, k) {
          LeastStepUnique(ch, bs, band, s, steps);
        }
      }
    }
  }

  lemma {:induction false} ConcatCounts(batches: seq<seq<int>>, b: nat, k: int)
    requires b < |batches|
    ensures multiset(batches[b])[k] <= multiset(Concat(batches))[k]
  {
    assert Concat(batches) == batches[0] + Concat(batches[1..]);
    if b > 0 {
      ConcatCounts(batches[1..], b - 1, k);
      assert batches[1..][b - 1] == batches[b];
    }
  }

  lemma BatchDistinct(cfg: RotationCfg, n: nat, swaps: seq<(nat, nat)>, b: nat)
    requires InRange(swaps, n) && cfg.activeCount >= 1 && b < |Batches(cfg, n, swaps)|
    ensures Distinct(Batches(cfg, n, swaps)[b])
  {
    BatchesPartition(cfg, n, swaps);
    var batch := Batches(cfg, n, swaps)[b];
    forall i, j | 0 <= i < j < |batch|
      ensures batch[i] != batch[j]
    {
      if batch[i] == batch[j] {
        TwiceCounts(batch, i, j);
        ConcatCounts(Batches(cfg, n, swaps), b, batch[i]);
        IotaOnce(n, batch[i]);
      }
    }
  }
}
