/** The rows of the shared database, as far as key selection reads and writes them. */
module ChannelModel {
  import opened Common

  const ENABLED: int := 1
  const MANUALLY_DISABLED: int := 2
  const AUTO_DISABLED: int := 3

  /** A value of the other_info JSON object; only the two merged entries are interpreted. */
  datatype InfoValue = Text(text: string) | Number(n: int) | Raw(raw: string)

  datatype ChannelInfo = ChannelInfo(
    isMultiKey: bool,
    statusList: map<int, int>,
    disabledReason: map<int, string>,
    disabledTime: map<int, int>,
    multiKeyMode: string)

  /** keys is what the key column splits into; epoch is the fingerprint of that list. */
  datatype Channel = Channel(
    id: int,
    keys: seq<string>,
    epoch: string,
    status: int,
    autoBan: Option<int>,
    otherInfo: map<string, InfoValue>,
    info: ChannelInfo)

  datatype AbilityKey = AbilityKey(group: string, model: string, channelId: int)

  datatype Database = Database(channels: map<int, Channel>, abilities: map<AbilityKey, bool>)

  predicate EnabledAt(keyCount: nat, statusList: map<int, int>, i: int) {
    0 <= i < keyCount && (i in statusList ==> statusList[i] == ENABLED)
  }

  predicate AnyEnabled(keyCount: nat, statusList: map<int, int>) {
    exists i :: 0 <= i < keyCount && EnabledAt(keyCount, statusList, i)
  }

  predicate KeyEnabled(ch: Channel, i: int) {
    EnabledAt(|ch.keys|, ch.info.statusList, i)
  }

  predicate SomeKeyEnabled(ch: Channel) {
    AnyEnabled(|ch.keys|, ch.info.statusList)
  }

  /** A key without an entry in the status list counts as enabled. */
  function KeyStatus(ch: Channel, idx: int): int {
    if idx in ch.info.statusList then ch.info.statusList[idx] else ENABLED
  }

  function AutoBan(ch: Channel): bool {
    ch.autoBan.None? || ch.autoBan.value == 1
  }

  /** Enabled indexes in ascending order; empty exactly when every key is dead. */
  method EnabledKeyIndexes(ch: Channel) returns (res: seq<int>)
    ensures Ascending(res)
    ensures forall i :: i in res <==> KeyEnabled(ch, i)
    ensures res == [] <==> !SomeKeyEnabled(ch)
  {
    res := [];
    for i := 0 to |ch.keys|
      invariant Ascending(res)
      invariant forall j :: j in res <==> j < i && KeyEnabled(ch, j)
    {
      if i in ch.info.statusList && ch.info.statusList[i] != ENABLED {
        continue;
      }
      assert forall k :: 0 <= k < |res| ==> res[k] in res;
      res := res + [i];
    }
    assert forall i :: EnabledAt(|ch.keys|, ch.info.statusList, i) == KeyEnabled(ch, i);
    if res != [] {
      assert res[0] in res;
    }
  }

  /**
   * The one fact the three copies must agree on: a multi-key channel is on exactly when a
   * key is, and otherwise auto-disabled; ability rows are on exactly when the channel is.
   */
  ghost predicate Consistent(db: Database, cid: int)
    requires cid in db.channels
  {
    var ch := db.channels[cid];
    && (ch.info.isMultiKey ==> ch.status == if SomeKeyEnabled(ch) then ENABLED else AUTO_DISABLED)
    && AbilitiesAre(db, cid, ch.status == ENABLED)
  }

  ghost predicate AbilitiesAre(db: Database, cid: int, on: bool) {
    forall a :: a in db.abilities && a.channelId == cid ==> db.abilities[a] == on
  }
}
