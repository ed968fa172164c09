/** The second implementation of rotation, which reports each key's state, and its agreement with the selector. */
module RotationApi {
  import opened Common
  import opened ChannelModel
  import opened SettingsModel
  import opened Rotation
  import opened CandidateSet

  /** The shuffle and the cutting, written out again over one array. */
  method BuildBatchesAPI(cfg: RotationCfg, keyCount: nat, swaps: seq<(nat, nat)>) returns (batches: seq<seq<int>>)
    requires InRange(swaps, keyCount)
    ensures batches == Batches(cfg, keyCount, swaps)
  {
    if keyCount <= 0 {
      return [];
    }
    var indexes := new int[keyCount](i => i);
    assert indexes[..] == Iota(keyCount);
    if cfg.order == "shuffle" {
      SwapInPlace(indexes, swaps);
    }
    var size := cfg.activeCount;
    if size <= 0 {
      size := indexes.Length;
    }
    batches := CutAPI(indexes, size);
  }

  method CutAPI(indexes: array<int>, size: nat) returns (batches: seq<seq<int>>)
    requires size > 0
    ensures batches == Chunks(indexes[..], size)
  {
    ghost var order := indexes[..];
    batches := [];
    var start := 0;
    CutEnds([], order, size);
    while start < indexes.Length
      invariant 0 <= start
      invariant CutTo(batches, order, start, size)
    {
      var end := start + size;
      if end > indexes.Length {
        end := indexes.Length;
      }
      assert indexes[start..end] == order[start..end];
      CutNext(batches, order, start, size);
      batches := batches + [indexes[start..end]];
      start := start + size;
    }
    CutEnds(batches, order, size);
  }

  method SwapInPlace(a: array<int>, swaps: seq<(nat, nat)>)
    requires InRange(swaps, a.Length)
    modifies a
    ensures a[..] == SwapAll(old(a[..]), swaps)
  {
    for k := 0 to |swaps|
      invariant a[..] == SwapAll(old(a[..]), swaps[..k])
    {
      var (i, j) := swaps[k];
      assert swaps[..k + 1][..k] == swaps[..k];
      ghost var before := a[..];
      a[i], a[j] := a[j], a[i];
      assert a[..] == Swap(before, i, j);
    }
    assert swaps[..|swaps|] == swaps;
  }

  /** Every index in the band's batch or its overlap, enabled or not. */
  method BandSetAPI(batches: seq<seq<int>>, band: int, overlapBands: int) returns (res: set<int>)
    ensures batches == [] ==> res == {}
    ensures batches != [] ==> forall k :: k in res <==> InBand(batches, band, overlapBands, k)
  {
    var n := |batches|;
    res := {};
    if n == 0 {
      return;
    }
    var overlap := overlapBands;
    if overlap < 0 {
      overlap := 0;
    }
    var back := 0;
    while back <= overlap
      invariant 0 <= back <= overlap + 1
      invariant forall k :: k in res <==> exists d :: 0 <= d < back && InBatchBack(batches, band, d, k)
    {
      var r := GoRem(band - back, n);
      ModOfNegation(band - back, n);
      if r < 0 {
        r := r + n;
      }
      assert r == (band - back) % n;
      var b := batches[r];
      ghost var before := res;
      for i := 0 to |b|
        invariant forall k :: k in res <==> k in before || k in b[..i]
      {
        assert forall k :: k in b[..i + 1] <==> k in b[..i] || k == b[i];
        res := res + {b[i]};
      }
      assert b[..|b|] == b;
      assert forall k :: InBatchBack(batches, band, back, k) <==> k in b;
      back := back + 1;
    }
  }

  /** What is reported of key i. */
  ghost function StateOf(ch: Channel, st: Option<Settings>, now: nat, swaps: seq<(nat, nat)>, i: int): string
    requires InRange(swaps, |ch.keys|)
  {
    if !Rotates(st, ch.id) || ch.keys == [] then ""
    else if KeyEnabled(ch, i) && InBandNow(ch, st.value.rotation[ch.id], now, swaps, i) then "active"
    else "standby"
  }

  ghost predicate InBandNow(ch: Channel, cfg: RotationCfg, now: nat, swaps: seq<(nat, nat)>, i: int)
    requires InRange(swaps, |ch.keys|) && cfg.bandSeconds > 0
  {
    var bs := BatchesOf(ch, cfg, swaps);
    bs != [] && InBand(bs, now / cfg.bandSeconds, cfg.overlapBands, i)
  }

  method RotationStates(ch: Channel, st: Option<Settings>, now: nat, swaps: seq<(nat, nat)>) returns (states: array<string>)
    requires InRange(swaps, |ch.keys|)
    ensures fresh(states) && states.Length == |ch.keys|
    ensures forall i :: 0 <= i < |ch.keys| ==> states[i] == StateOf(ch, st, now, swaps, i)
  {
    var n := |ch.keys|;
    states := new string[n](i => "");
    var cfg := RotationCfgOf(st, ch.id);
    if cfg.None? || n == 0 {
      return;
    }
    var batches := BuildBatchesAPI(cfg.value, n, swaps);
    BatchesPartition(cfg.value, n, swaps);
    assert OnceIn(batches, 0);
    var band := now / cfg.value.bandSeconds;
    var active := BandSetAPI(batches, band, cfg.value.overlapBands);
    var live := EnabledKeyIndexes(ch);
    var enabled := SetOf(live);
    Mark(states, enabled, active);
    forall i | 0 <= i < n
      ensures states[i] == StateOf(ch, st, now, swaps, i)
    {
      assert i in enabled <==> KeyEnabled(ch, i);
      assert i in active <==> InBandNow(ch, cfg.value, now, swaps, i);
    }
  }

  method Mark(states: array<string>, enabled: set<int>, active: set<int>)
    modifies states
    ensures forall i :: 0 <= i < states.Length ==> states[i] == if i in enabled && i in active then "active" else "standby"
  {
    for i := 0 to states.Length
      invariant forall j :: 0 <= j < i ==> states[j] == if j in enabled && j in active then "active" else "standby"
    {
      if i !in enabled {
        states[i] := "standby";
        continue;
      }
      if i in active {
        states[i] := "active";
      } else {
        states[i] := "standby";
      }
    }
  }

  /**
   * The two implementations agree: carried out side by side for any channel with a rotation,
   * settings and clock, the one marks as active exactly the keys the other returns.
   */
  method CompareRotations(ch: Channel, st: Option<Settings>, now: nat, swaps: seq<(nat, nat)>)
    returns (states: array<string>, cands: seq<int>)
    requires InRange(swaps, |ch.keys|) && Rotates(st, ch.id)
    ensures states.Length == |ch.keys| && Ascending(cands)
    ensures forall k :: k in cands <==> 0 <= k < |ch.keys| && states[k] == "active"
  {
    states := RotationStates(ch, st, now, swaps);

    var cfg := RotationCfgOf(st, ch.id).value;
    var live := EnabledKeyIndexes(ch);
    var enabled := SetOf(live);
    var batches := BuildBatches(cfg, |ch.keys|, swaps);
    cands := BandCandidates(batches, enabled, now / cfg.bandSeconds, cfg.overlapBands);
    ActiveAreBandCandidates(ch, st, now, swaps, enabled, cands);
  }

  /** The active states are those of the band's enabled keys. */
  lemma ActiveAreBandCandidates(ch: Channel, st: Option<Settings>, now: nat, swaps: seq<(nat, nat)>, enabled: set<int>, cands: seq<int>)
    requires InRange(swaps, |ch.keys|) && Rotates(st, ch.id)
    requires forall k :: k in enabled <==> KeyEnabled(ch, k)
    requires var cfg := st.value.rotation[ch.id];
             var bs := BatchesOf(ch, cfg, swaps);
             if bs == [] then cands == []
             else forall k :: k in cands <==> k in enabled && InBand(bs, now / cfg.bandSeconds, cfg.overlapBands, k)
    ensures forall k :: k in cands <==> 0 <= k < |ch.keys| && StateOf(ch, st, now, swaps, k) == "active"
  {
    forall k
      ensures k in cands <==> 0 <= k < |ch.keys| && StateOf(ch, st, now, swaps, k) == "active"
    {
      assert k in enabled <==> KeyEnabled(ch, k);
      assert ch.keys == [] ==> BatchesOf(ch, st.value.rotation[ch.id], swaps) == [];
    }
  }

  /**
   * An active key can always be selected. The converse is exact: selectable and active are the
   * same unless the band holds no live key while another batch does, since the reported states
   * do not look ahead.
   */
  lemma ActiveVersusSelectable(ch: Channel, st: Option<Settings>, now: nat, swaps: seq<(nat, nat)>)
    requires InRange(swaps, |ch.keys|) && ch.keys != [] && Rotates(st, ch.id)
    ensures var cfg := st.value.rotation[ch.id];
            var bs, band := BatchesOf(ch, cfg, swaps), now / cfg.bandSeconds;
            && bs != []
            && (forall k :: StateOf(ch, st, now, swaps, k) == "active" ==> Candidate(ch, st, now, swaps, k))
            && ((forall k :: Candidate(ch, st, now, swaps, k) ==> StateOf(ch, st, now, swaps, k) == "active")
                <==> LiveInBand(ch, bs, band, cfg.overlapBands) || !SomeKeyEnabled(ch))
  {
    var cfg := st.value.rotation[ch.id];
    var bs, band := BatchesOf(ch, cfg, swaps), now / cfg.bandSeconds;
    BatchesPartition(cfg, |ch.keys|, swaps);
    assert OnceIn(bs, 0);
    CandidateIffLive(ch, st, now, swaps);
    forall k | StateOf(ch, st, now, swaps, k) == "active"
      ensures Candidate(ch, st, now, swaps, k) && LiveInBand(ch, bs, band, cfg.overlapBands)
    {
    }
  }
}
