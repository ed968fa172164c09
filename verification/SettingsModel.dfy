/** The configuration snapshot, and the guards that decide automatic disabling and enabling. */
module SettingsModel {
  import opened Common
  import ChannelModel

  datatype CodeRange = CodeRange(start: int, end: int)

  datatype BalanceCfg = BalanceCfg(mode: string, metric: string, decayInterval: real, decayFactor: real)

  datatype RotationCfg = RotationCfg(bandSeconds: int, activeCount: int, overlapBands: int, order: string)

  datatype Settings = Settings(
    autoDisableOn: bool,
    autoEnableOn: bool,
    disableCodeRanges: seq<CodeRange>,
    disableKeywords: seq<string>,
    balance: map<int, BalanceCfg>,
    rotation: map<int, RotationCfg>)

  /** The scan over the ranges answers membership in their union. */
  function MatchCodeRange(ranges: seq<CodeRange>, code: int): (hit: bool)
    ensures hit <==> exists r :: r in ranges && r.start <= code <= r.end
  {
    if ranges == [] then false
    else if ranges[0].start <= code <= ranges[0].end then
      assert ranges[0] in ranges;
      true
    else
      assert forall r :: r in ranges ==> r == ranges[0] || r in ranges[1..];
      MatchCodeRange(ranges[1..], code)
  }

  predicate Contains(s: string, part: string) {
    exists i :: 0 <= i <= |s| && OccursAt(s, part, i)
  }

  predicate OccursAt(s: string, part: string, i: int) {
    0 <= i <= |s| - |part| && s[i..i + |part|] == part
  }

  /** lowered is the error message in lower case. */
  predicate ShouldDisable(st: Option<Settings>, autoBan: bool, statusCode: int, lowered: string) {
    && st.Some?
    && st.value.autoDisableOn
    && autoBan
    && (|| MatchCodeRange(st.value.disableCodeRanges, statusCode)
        || exists k :: 0 <= k < |st.value.disableKeywords| && st.value.disableKeywords[k] != ""
             && Contains(lowered, st.value.disableKeywords[k]))
  }

  predicate ShouldEnable(st: Option<Settings>, prevStatus: int) {
    st.Some? && st.value.autoEnableOn && prevStatus == ChannelModel.AUTO_DISABLED
  }
}
