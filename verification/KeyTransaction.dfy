/**
 * The write-through transaction that enables or disables one key, and what it keeps.
 */
module KeyTransaction {
  import opened Common
  import opened ChannelModel

  const ALL_KEYS_DISABLED: string := "All keys are disabled"

  /** Whether a remote step took effect, and whether its caller learnt of it. */
  datatype Reply = Delivered | Lost | NotExecuted

  datatype ApplyResult = Rejected | Applied(db: Database, channelStatus: int, allDead: bool)

  function WithKeyStatus(info: ChannelInfo, idx: int, status: int, reason: string, now: int): ChannelInfo {
    if status == ENABLED then
      info.(statusList := info.statusList - {idx},
            disabledReason := info.disabledReason - {idx},
            disabledTime := info.disabledTime - {idx})
    else
      info.(statusList := info.statusList[idx := status],
            disabledReason := info.disabledReason[idx := reason],
            disabledTime := info.disabledTime[idx := now])
  }

  function Merge(other: map<string, InfoValue>, reason: string, now: int): map<string, InfoValue> {
    other + map["status_reason" := Text(reason), "status_time" := Number(now)]
  }

  function SetAbilities(abilities: map<AbilityKey, bool>, cid: int, on: bool): map<AbilityKey, bool> {
    map a | a in abilities :: if a.channelId == cid then on else abilities[a]
  }

  /** The transaction as one step on the database. */
  function Apply(db: Database, cid: int, idx: int, status: int, reason: string, now: int): ApplyResult {
    if cid !in db.channels then Rejected
    else if db.channels[cid].info.isMultiKey then ApplyMulti(db, cid, idx, status, reason, now)
    else if idx != 0 then Rejected
    else
      var ch := db.channels[cid];
      var other := if status == ENABLED then ch.otherInfo else Merge(ch.otherInfo, reason, now);
      Applied(Database(db.channels[cid := ch.(status := status, otherInfo := other)],
                       SetAbilities(db.abilities, cid, status == ENABLED)),
              status, status != ENABLED)
  }

  function ApplyMulti(db: Database, cid: int, idx: int, status: int, reason: string, now: int): ApplyResult
    requires cid in db.channels
  {
    var ch := db.channels[cid];
    if idx < 0 || idx >= |ch.keys| then Rejected
    else
      var ch' := ch.(info := WithKeyStatus(ch.info, idx, status, reason, now));
      if !SomeKeyEnabled(ch') then
        Applied(Database(db.channels[cid := ch'.(status := AUTO_DISABLED, otherInfo := Merge(ch.otherInfo, ALL_KEYS_DISABLED, now))],
                         SetAbilities(db.abilities, cid, false)),
                AUTO_DISABLED, true)
      else if status == ENABLED then
        Applied(Database(db.channels[cid := ch'.(status := ENABLED)], SetAbilities(db.abilities, cid, true)),
                ENABLED, false)
      else
        Applied(db.(channels := db.channels[cid := ch']), ch.status, false)
  }

  // ----- the database as the program updates it -----

  class Store {
    var channels: map<int, Channel>
    var abilities: map<AbilityKey, bool>

    constructor (channels: map<int, Channel>, abilities: map<AbilityKey, bool>)
      ensures Db() == Database(channels, abilities)
    {
      this.channels := channels;
      this.abilities := abilities;
    }

    function Db(): Database
      reads this
    {
      Database(channels, abilities)
    }

    /** One transaction. A lost reply means it committed although its caller sees an error. */
    method ApplyKeyStatus(cid: int, idx: int, status: int, reason: string, now: int, reply: Reply)
      returns (ok: bool, channelStatus: int, allDead: bool)
      modifies this
      ensures var res := Apply(old(Db()), cid, idx, status, reason, now);
              && (Db() == if res.Rejected? || reply.NotExecuted? then old(Db()) else res.db)
              && (ok <==> res.Applied? && reply.Delivered?)
              && (ok ==> channelStatus == res.channelStatus && allDead == res.allDead)
      ensures old(cid in channels) && channels[cid].info.isMultiKey && ok ==> allDead == !SomeKeyEnabled(channels[cid])
    {
      channelStatus, allDead := 0, false;
      if reply.NotExecuted? || cid !in channels {
        return false, 0, false;
      }
      var ch := channels[cid];
      if ch.info.isMultiKey {
        if idx < 0 || idx >= |ch.keys| {
          return false, 0, false;
        }
        var statusList, reasons, times := ch.info.statusList, ch.info.disabledReason, ch.info.disabledTime;
        if status == ENABLED {
          statusList := statusList - {idx};
          reasons := reasons - {idx};
          times := times - {idx};
        } else {
          statusList := statusList[idx := status];
          reasons := reasons[idx := reason];
          times := times[idx := now];
        }
        var updated := ch.(info := ch.info.(statusList := statusList, disabledReason := reasons, disabledTime := times));
        var enabled := EnabledKeyIndexes(updated);
        if |enabled| == 0 {
          allDead := true;
          channelStatus := AUTO_DISABLED;
          updated := updated.(status := channelStatus, otherInfo := Merge(ch.otherInfo, ALL_KEYS_DISABLED, now));
        } else if status == ENABLED {
          channelStatus := ENABLED;
          updated := updated.(status := channelStatus);
        } else {
          channelStatus := ch.status;
        }
        channels := channels[cid := updated];
        if allDead {
          abilities := SetAbilities(abilities, cid, false);
        } else if status == ENABLED {
          abilities := SetAbilities(abilities, cid, true);
        }
      } else {
        if idx != 0 {
          return false, 0, false;
        }
        channelStatus := status;
        allDead := status != ENABLED;
        var updated := ch.(status := channelStatus);
        if status != ENABLED {
          updated := updated.(otherInfo := Merge(ch.otherInfo, reason, now));
        }
        channels := channels[cid := updated];
        abilities := SetAbilities(abilities, cid, status == ENABLED);
      }
      ok := reply.Delivered?;
    }
  }

  // ----- agreement of the three copies -----

  /**
   * The transaction leaves the channel consistent exactly when it writes the channel status
   * itself (an enable, or the last key dying) or finds it already on with its abilities on.
   * In particular it repairs a foreign status when enabling, and never breaks agreement.
   */
  lemma ApplyAgreement(db: Database, cid: int, idx: int, status: int, reason: string, now: int)
    requires Apply(db, cid, idx, status, reason, now).Applied?
    ensures var res := Apply(db, cid, idx, status, reason, now);
            var ch := db.channels[cid];
            Consistent(res.db, cid) <==>
              || !ch.info.isMultiKey
              || status == ENABLED
              || !(exists i :: 0 <= i < |ch.keys| && i != idx && KeyEnabled(ch, i))
              || (ch.status == ENABLED && AbilitiesAre(db, cid, true))
  {
    var res := Apply(db, cid, idx, status, reason, now);
    var ch, ch' := db.channels[cid], res.db.channels[cid];
    if ch.info.isMultiKey {
      var n, before, after := |ch.keys|, ch.info.statusList, ch'.info.statusList;
      assert forall i :: i != idx ==> EnabledAt(n, after, i) == EnabledAt(n, before, i) == KeyEnabled(ch, i);
      if status == ENABLED {
        assert EnabledAt(n, after, idx);
      } else {
        assert !EnabledAt(n, after, idx);
      }
    }
  }

  lemma ApplyKeepsConsistent(db: Database, cid: int, idx: int, status: int, reason: string, now: int)
    requires Apply(db, cid, idx, status, reason, now).Applied?
    requires Consistent(db, cid)
    ensures Consistent(Apply(db, cid, idx, status, reason, now).db, cid)
  {
    ApplyAgreement(db, cid, idx, status, reason, now);
  }

  /** Nothing but the addressed channel's status, other_info and one key's entries changes. */
  lemma ApplyFrame(db: Database, cid: int, idx: int, status: int, reason: string, now: int)
    requires Apply(db, cid, idx, status, reason, now).Applied?
    ensures var db' := Apply(db, cid, idx, status, reason, now).db;
            && db'.channels.Keys == db.channels.Keys
            && (forall c :: c in db.channels && c != cid ==> db'.channels[c] == db.channels[c])
            && var ch, ch' := db.channels[cid], db'.channels[cid];
            && ch'.keys == ch.keys && ch'.epoch == ch.epoch && ch'.autoBan == ch.autoBan
            && ch'.id == ch.id
            && ch'.info.isMultiKey == ch.info.isMultiKey && ch'.info.multiKeyMode == ch.info.multiKeyMode
            && (!ch.info.isMultiKey ==> ch'.info == ch.info)
            && (forall i :: i != idx || !ch.info.isMultiKey ==> KeyStatus(ch', i) == KeyStatus(ch, i))
            && ch'.info.statusList - {idx} == ch.info.statusList - {idx}
            && ch'.info.disabledReason - {idx} == ch.info.disabledReason - {idx}
            && ch'.info.disabledTime - {idx} == ch.info.disabledTime - {idx}
            && db'.abilities.Keys == db.abilities.Keys
            && (forall a :: a in db.abilities && a.channelId != cid ==> db'.abilities[a] == db.abilities[a])
  {
  }

  /**
   * other_info is touched exactly when the call leaves the channel dead, and then only its
   * reason and time; a multi-key channel gets the fixed reason, not the key's.
   */
  lemma ApplyOtherInfo(db: Database, cid: int, idx: int, status: int, reason: string, now: int)
    requires Apply(db, cid, idx, status, reason, now).Applied?
    ensures var res := Apply(db, cid, idx, status, reason, now);
            var ch := db.channels[cid];
            var before, after := ch.otherInfo, res.db.channels[cid].otherInfo;
            && (!res.allDead ==> after == before)
            && (res.allDead ==>
                  && after.Keys == before.Keys + {"status_reason", "status_time"}
                  && after["status_reason"] == Text(if ch.info.isMultiKey then ALL_KEYS_DISABLED else reason)
                  && after["status_time"] == Number(now)
                  && forall k :: k in before && k != "status_reason" && k != "status_time" ==> after[k] == before[k])
  {
    assert "status_reason" != "status_time" by { assert |"status_reason"| != |"status_time"|; }
  }

  /** Some key is on once key idx has the status: 1 is on, and so is a key without an entry. */
  ghost predicate OneLeft(ch: Channel, idx: int, status: int) {
    exists i :: 0 <= i < |ch.keys| && OnAfter(ch, idx, status, i)
  }

  ghost predicate OnAfter(ch: Channel, idx: int, status: int, i: int) {
    if i == idx then status == 1 else i in ch.info.statusList ==> ch.info.statusList[i] == 1
  }

  /**
   * Which calls are refused, and the channel status and ability rows after one that is not, for
   * any row: off by 3 with the last key, on by an enable, and otherwise as they were, whatever
   * they were. A channel that is not multi-key takes the status given.
   */
  lemma ApplyRow(db: Database, cid: int, idx: int, status: int, reason: string, now: int)
    ensures var res := Apply(db, cid, idx, status, reason, now);
            && (res.Rejected? <==>
                  cid !in db.channels || if db.channels[cid].info.isMultiKey then idx < 0 || |db.channels[cid].keys| <= idx else idx != 0)
            && (res.Applied? ==>
                  && cid in res.db.channels && res.db.abilities.Keys == db.abilities.Keys
                  && var ch := db.channels[cid];
                     var dead := if ch.info.isMultiKey then !OneLeft(ch, idx, status) else status != 1;
                     && res.allDead == dead
                     && res.channelStatus == res.db.channels[cid].status
                     && res.channelStatus == (if !ch.info.isMultiKey then status
                                              else if dead then 3
                                              else if status == 1 then 1
                                              else ch.status)
                     && forall a :: a in db.abilities && a.channelId == cid ==>
                          res.db.abilities[a] == if dead then false else if status == 1 then true else db.abilities[a])
  {
    if cid in db.channels {
      LeftIsEnabled(db.channels[cid], idx, status, reason, now);
    }
  }

  lemma LeftIsEnabled(ch: Channel, idx: int, status: int, reason: string, now: int)
    ensures SomeKeyEnabled(ch.(info := WithKeyStatus(ch.info, idx, status, reason, now))) <==> OneLeft(ch, idx, status)
  {
    var after := WithKeyStatus(ch.info, idx, status, reason, now).statusList;
    if i :| 0 <= i < |ch.keys| && EnabledAt(|ch.keys|, after, i) {
      assert OnAfter(ch, idx, status, i);
    }
    if i :| 0 <= i < |ch.keys| && OnAfter(ch, idx, status, i) {
      assert EnabledAt(|ch.keys|, after, i);
    }
  }

  /** What the caller is told is what a fresh scan of the keys would give. */
  lemma ApplyReportsRecomputation(db: Database, cid: int, idx: int, status: int, reason: string, now: int)
    requires Apply(db, cid, idx, status, reason, now).Applied?
    requires db.channels[cid].info.isMultiKey
    ensures var res := Apply(db, cid, idx, status, reason, now);
            && res.allDead == !SomeKeyEnabled(res.db.channels[cid])
            && res.channelStatus == res.db.channels[cid].status
            && (Consistent(db, cid) ==>
                  res.channelStatus == if SomeKeyEnabled(res.db.channels[cid]) then ENABLED else AUTO_DISABLED)
  {
    if Consistent(db, cid) {
      ApplyKeepsConsistent(db, cid, idx, status, reason, now);
    }
  }

  // ----- refinement of a per-key status vector -----

  datatype Entry = Entry(status: int, reason: string, time: int)

  ghost predicate EqualDomains(info: ChannelInfo) {
    info.statusList.Keys == info.disabledReason.Keys == info.disabledTime.Keys
  }

  ghost function EntryOf(info: ChannelInfo, i: int): Option<Entry>
    requires EqualDomains(info)
  {
    if i in info.statusList then
      assert i in info.disabledReason.Keys && i in info.disabledTime.Keys;
      Some(Entry(info.statusList[i], info.disabledReason[i], info.disabledTime[i]))
    else None
  }

  datatype Call = Call(cid: int, idx: int, status: int, reason: string, now: int)

  ghost function ApplyAll(db: Database, calls: seq<Call>): Database {
    if calls == [] then db
    else
      var before := ApplyAll(db, calls[..|calls| - 1]);
      var c := calls[|calls| - 1];
      var res := Apply(before, c.cid, c.idx, c.status, c.reason, c.now);
      if res.Applied? then res.db else before
  }

  /** What the last call on (cid, i) wrote, or the initial entry if there was none. */
  ghost function LastWrite(calls: seq<Call>, cid: int, i: int, initial: Option<Entry>): Option<Entry> {
    if calls == [] then initial
    else
      var c := calls[|calls| - 1];
      if c.cid == cid && c.idx == i then
        if c.status == ENABLED then None else Some(Entry(c.status, c.reason, c.now))
      else LastWrite(calls[..|calls| - 1], cid, i, initial)
  }

  /** Any history of calls, in or out of range, leaves each key as the last call on it wrote it. */
  lemma {:induction false} HistoryRefinesVector(db: Database, calls: seq<Call>, cid: int)
    requires cid in db.channels && db.channels[cid].info.isMultiKey
    requires EqualDomains(db.channels[cid].info)
    ensures var db' := ApplyAll(db, calls);
            && cid in db'.channels
            && db'.channels[cid].keys == db.channels[cid].keys
            && db'.channels[cid].info.isMultiKey
            && EqualDomains(db'.channels[cid].info)
            && forall i :: 0 <= i < |db.channels[cid].keys| ==>
                 EntryOf(db'.channels[cid].info, i) == LastWrite(calls, cid, i, EntryOf(db.channels[cid].info, i))
  {
    if calls != [] {
      var prefix, c := calls[..|calls| - 1], calls[|calls| - 1];
      HistoryRefinesVector(db, prefix, cid);
      var before := ApplyAll(db, prefix);
      var res := Apply(before, c.cid, c.idx, c.status, c.reason, c.now);
      if res.Applied? && c.cid == cid {
        var info, info' := before.channels[cid].info, res.db.channels[cid].info;
        assert info' == WithKeyStatus(info, c.idx, c.status, c.reason, c.now);
        forall i | 0 <= i < |db.channels[cid].keys| && i != c.idx
          ensures EntryOf(info', i) == EntryOf(info, i)
        {}
      }
    }
  }

  /** From an agreeing database, every history of calls ends in an agreeing database. */
  lemma {:induction false} HistoryKeepsConsistent(db: Database, calls: seq<Call>, cid: int)
    requires cid in db.channels && Consistent(db, cid)
    ensures cid in ApplyAll(db, calls).channels && Consistent(ApplyAll(db, calls), cid)
  {
    if calls != [] {
      var prefix, c := calls[..|calls| - 1], calls[|calls| - 1];
      HistoryKeepsConsistent(db, prefix, cid);
      ApplyKeepsAll(ApplyAll(db, prefix), c.cid, c.idx, c.status, c.reason, c.now, cid);
    }
  }

  /** A transaction on one channel keeps every channel consistent. */
  lemma ApplyKeepsAll(db: Database, cid: int, idx: int, status: int, reason: string, now: int, other: int)
    requires other in db.channels && Consistent(db, other)
    ensures var res := Apply(db, cid, idx, status, reason, now);
            res.Applied? ==> other in res.db.channels && Consistent(res.db, other)
  {
    var res := Apply(db, cid, idx, status, reason, now);
    if res.Applied? {
      ApplyFrame(db, cid, idx, status, reason, now);
      if other == cid {
        ApplyKeepsConsistent(db, cid, idx, status, reason, now);
      }
    }
  }
}
