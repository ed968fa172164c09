/** The settings snapshot: how one poll of the options folds into it, and what a history of polls leaves. */
module SettingsHistory {
  import opened Common
  import opened SettingsModel
  import opened Text
  import CodeRanges

  const OPT_AUTO_DISABLE: string := "AutomaticDisableChannelEnabled"
  const OPT_AUTO_ENABLE: string := "AutomaticEnableChannelEnabled"
  const OPT_STATUS_CODES: string := "AutomaticDisableStatusCodes"
  const OPT_KEYWORDS: string := "AutomaticDisableKeywords"
  const BALANCE_PREFIX: string := "keypool.balance."
  const ROTATION_PREFIX: string := "keypool.rotation."
  const DEFAULT_STATUS_CODES: string := "401"
  const DEFAULT_KEYWORDS: seq<string> := [
    "your credit balance is too low",
    "this organization has been disabled.",
    "you exceeded your current quota",
    "permission denied",
    "the security token included in the request is invalid",
    "operation not allowed",
    "your account is not authorized"
  ]

  type Options = map<string, string>

  /** The JSON decoders of the two kinds of entries, and lower-casing. */
  datatype Library = Library(balance: string -> Option<BalanceCfg>, rotation: string -> Option<RotationCfg>, lower: string -> string)

  // ----- one poll -----

  function Value(opts: Options, key: string): string {
    if key in opts then opts[key] else ""
  }

  predicate SameLetter(c: char, lower: char, upper: char) { c == lower || c == upper }

  /** "true" in any mixture of cases. */
  predicate IsTrue(s: string) {
    |s| == 4 && SameLetter(s[0], 't', 'T') && SameLetter(s[1], 'r', 'R') && SameLetter(s[2], 'u', 'U') && SameLetter(s[3], 'e', 'E')
  }

  /** The text the status codes are read from: unset counts as the default. */
  function CodesText(opts: Options): string {
    var raw := TrimSpace(Value(opts, OPT_STATUS_CODES));
    if raw == "" then DEFAULT_STATUS_CODES else raw
  }

  lemma DefaultCodes()
    ensures CodeRanges.Parse(DEFAULT_STATUS_CODES) == CodeRanges.Ranges([CodeRange(401, 401)])
  {
    var item := CodeRanges.Item("", CodeRange(401, 401), false, "");
    assert DigitsOf(401) == "401" by {
      assert DigitsOf(4) == "4" && DigitsOf(40) == "40";
    }
    assert CodeRanges.Print(item) == "401";
    assert CodeRanges.PrintAll([item]) == ["401"];
    CodeRanges.ParseOfPrint([item]);
    assert CodeRanges.RangesOf([item]) == [CodeRange(401, 401)];
  }

  /** The codes of this poll if they parse, else those of the snapshot before, else the default. */
  function CodesAfter(opts: Options, prev: Option<Settings>): seq<CodeRange> {
    var parsed := CodeRanges.Parse(CodesText(opts));
    if parsed.Ranges? then parsed.ranges
    else if prev.Some? then prev.value.disableCodeRanges
    else [CodeRange(401, 401)]
  }

  function Keywords(lines: seq<string>, lower: string -> string): seq<string> {
    if lines == [] then []
    else
      var before, line := Keywords(lines[..|lines| - 1], lower), lower(TrimSpace(lines[|lines| - 1]));
      if line == "" then before else before + [line]
  }

  /** Some line, trimmed and lowered, is the word. */
  ghost predicate KeywordOf(lines: seq<string>, lower: string -> string, w: string) {
    exists line :: line in lines && lower(TrimSpace(line)) == w
  }

  lemma KeywordSnoc(lines: seq<string>, line: string, lower: string -> string)
    ensures forall w :: KeywordOf(lines + [line], lower, w) <==> KeywordOf(lines, lower, w) || lower(TrimSpace(line)) == w
  {
    var more := lines + [line];
    forall w
      ensures KeywordOf(more, lower, w) <==> KeywordOf(lines, lower, w) || lower(TrimSpace(line)) == w
    {
      assert line in more && forall l :: l in more <==> l in lines || l == line;
    }
  }

  method ParseKeywords(raw: string, lower: string -> string) returns (res: seq<string>)
    ensures res == Keywords(Split(raw, '\n'), lower)
    ensures forall w :: w in res <==> w != "" && KeywordOf(Split(raw, '\n'), lower, w)
  {
    var lines := Split(raw, '\n');
    res := [];
    for i := 0 to |lines|
      invariant res == Keywords(lines[..i], lower)
      invariant forall w :: w in res <==> w != "" && KeywordOf(lines[..i], lower, w)
    {
      assert lines[..i + 1][..i] == lines[..i];
      KeywordSnoc(lines[..i], lines[i], lower);
      assert lines[..i + 1] == lines[..i] + [lines[i]];
      var line := lower(TrimSpace(lines[i]));
      if line != "" {
        res := res + [line];
      }
    }
    assert lines[..|lines|] == lines;
  }

  /** A list that came out empty counts as never set once the option is gone. */
  function KeywordsAfter(opts: Options, prev: Option<Settings>, lower: string -> string): seq<string> {
    if OPT_KEYWORDS in opts then Keywords(Split(opts[OPT_KEYWORDS], '\n'), lower)
    else if prev.Some? && prev.value.disableKeywords != [] then prev.value.disableKeywords
    else DEFAULT_KEYWORDS
  }

  /** The option key names the channel: what follows the prefix reads as its number. */
  predicate Names(prefix: string, key: string, id: int) {
    prefix <= key && Atoi(key[|prefix|..]) == Some(id)
  }

  /** What a naming option gives: its value, or the entry before if it cannot be decoded. */
  function Gives<C>(decode: string -> Option<C>, value: string, prev: map<int, C>, id: int): Option<C> {
    var cfg := decode(value);
    if cfg.Some? then cfg
    else if id in prev then Some(prev[id])
    else None
  }

  function Lookup<C>(m: map<int, C>, id: int): Option<C> {
    if id in m then Some(m[id]) else None
  }

  /** The entry is given by one of the options naming the channel; there is none only if none gives any. */
  ghost predicate EntryFrom<C>(prefix: string, decode: string -> Option<C>, opts: Options, prev: map<int, C>, id: int, entry: Option<C>) {
    && (entry.Some? ==> exists k :: k in opts && Names(prefix, k, id) && Gives(decode, opts[k], prev, id) == entry)
    && (entry.None? ==> forall k :: k in opts && Names(prefix, k, id) ==> Gives(decode, opts[k], prev, id).None?)
  }

  function BalanceOf(st: Option<Settings>): map<int, BalanceCfg> { if st.Some? then st.value.balance else map[] }

  function RotationOf(st: Option<Settings>): map<int, RotationCfg> { if st.Some? then st.value.rotation else map[] }

  /** One successful poll; only options naming the same channel twice leave a choice. */
  ghost predicate Folded(lib: Library, opts: Options, prev: Option<Settings>, st: Settings) {
    && st.autoDisableOn == IsTrue(Value(opts, OPT_AUTO_DISABLE))
    && st.autoEnableOn == IsTrue(Value(opts, OPT_AUTO_ENABLE))
    && st.disableCodeRanges == CodesAfter(opts, prev)
    && st.disableKeywords == KeywordsAfter(opts, prev, lib.lower)
    && (forall id :: EntryFrom(BALANCE_PREFIX, lib.balance, opts, BalanceOf(prev), id, Lookup(st.balance, id)))
    && (forall id :: EntryFrom(ROTATION_PREFIX, lib.rotation, opts, RotationOf(prev), id, Lookup(st.rotation, id)))
  }

  /** The entries after the options in done have been looked at. */
  ghost predicate EntriesSoFar<C>(prefix: string, decode: string -> Option<C>, opts: Options, done: set<string>, prev: map<int, C>, m: map<int, C>) {
    forall id :: EntryFrom(prefix, decode, map k | k in opts && k in done :: opts[k], prev, id, Lookup(m, id))
  }

  /** The options are met in no particular order. */
  method ParseSettings(lib: Library, opts: Options, prev: Option<Settings>) returns (st: Settings)
    ensures Folded(lib, opts, prev, st)
  {
    var raw := TrimSpace(Value(opts, OPT_STATUS_CODES));
    if raw == "" {
      raw := DEFAULT_STATUS_CODES;
    }
    var parsed := CodeRanges.ParseCodeRanges(raw);
    var ranges;
    if parsed.Malformed? && prev.Some? {
      ranges := prev.value.disableCodeRanges;
    } else if parsed.Malformed? {
      DefaultCodes();
      var fallback := CodeRanges.ParseCodeRanges(DEFAULT_STATUS_CODES);
      ranges := fallback.ranges;
    } else {
      ranges := parsed.ranges;
    }
    var keywords;
    if OPT_KEYWORDS in opts {
      keywords := ParseKeywords(opts[OPT_KEYWORDS], lib.lower);
    } else if prev.Some? && prev.value.disableKeywords != [] {
      keywords := prev.value.disableKeywords;
    } else {
      keywords := DEFAULT_KEYWORDS;
    }
    var balance, rotation := ParseEntries(lib, opts, BalanceOf(prev), RotationOf(prev));
    st := Settings(IsTrue(Value(opts, OPT_AUTO_DISABLE)), IsTrue(Value(opts, OPT_AUTO_ENABLE)), ranges, keywords, balance, rotation);
  }

  method ParseEntries(lib: Library, opts: Options, oldBalance: map<int, BalanceCfg>, oldRotation: map<int, RotationCfg>)
    returns (balance: map<int, BalanceCfg>, rotation: map<int, RotationCfg>)
    ensures forall id :: EntryFrom(BALANCE_PREFIX, lib.balance, opts, oldBalance, id, Lookup(balance, id))
    ensures forall id :: EntryFrom(ROTATION_PREFIX, lib.rotation, opts, oldRotation, id, Lookup(rotation, id))
  {
    balance, rotation := map[], map[];
    var rest := opts.Keys;
    while rest != {}
      invariant rest <= opts.Keys
      invariant EntriesSoFar(BALANCE_PREFIX, lib.balance, opts, opts.Keys - rest, oldBalance, balance)
      invariant EntriesSoFar(ROTATION_PREFIX, lib.rotation, opts, opts.Keys - rest, oldRotation, rotation)
      decreases rest
    {
      var k :| k in rest;
      ghost var done := opts.Keys - rest;
      rest := rest - {k};
      assert opts.Keys - rest == done + {k};
      PrefixesApart(k);
      if BALANCE_PREFIX <= k {
        SkipKey(ROTATION_PREFIX, lib.rotation, opts, done, oldRotation, rotation, k);
        balance := AddEntry(BALANCE_PREFIX, lib.balance, opts, done, oldBalance, balance, k);
      } else {
        SkipKey(BALANCE_PREFIX, lib.balance, opts, done, oldBalance, balance, k);
        if ROTATION_PREFIX <= k {
          rotation := AddEntry(ROTATION_PREFIX, lib.rotation, opts, done, oldRotation, rotation, k);
        } else {
          SkipKey(ROTATION_PREFIX, lib.rotation, opts, done, oldRotation, rotation, k);
        }
      }
    }
    assert (map k | k in opts && k in opts.Keys :: opts[k]) == opts;
    assert opts.Keys - rest == opts.Keys;
  }

  lemma PrefixesApart(k: string)
    ensures !(BALANCE_PREFIX <= k && ROTATION_PREFIX <= k)
  {
    assert BALANCE_PREFIX <= k ==> k[8] == BALANCE_PREFIX[8] == 'b';
    assert ROTATION_PREFIX <= k ==> k[8] == ROTATION_PREFIX[8] == 'r';
  }

  /** One option of a kind: a number that does not parse is skipped. */
  method AddEntry<C>(prefix: string, decode: string -> Option<C>, opts: Options, ghost done: set<string>, prev: map<int, C>, m: map<int, C>, k: string)
    returns (m': map<int, C>)
    requires k in opts && prefix <= k && EntriesSoFar(prefix, decode, opts, done, prev, m)
    ensures EntriesSoFar(prefix, decode, opts, done + {k}, prev, m')
  {
    m' := m;
    var id := Atoi(k[|prefix|..]);
    if id.None? {
      SkipKey(prefix, decode, opts, done, prev, m, k);
      return;
    }
    var cfg := decode(opts[k]);
    if cfg.None? {
      if id.value in prev {
        m' := m[id.value := prev[id.value]];
      }
    } else {
      m' := m[id.value := cfg.value];
    }
    EntryAdded(prefix, decode, opts, done, prev, m, k, id.value);
  }

  lemma SkipKey<C>(prefix: string, decode: string -> Option<C>, opts: Options, done: set<string>, prev: map<int, C>, m: map<int, C>, k: string)
    requires EntriesSoFar(prefix, decode, opts, done, prev, m)
    requires forall id :: !Names(prefix, k, id)
    ensures EntriesSoFar(prefix, decode, opts, done + {k}, prev, m)
  {
    var some := map j | j in opts && j in done :: opts[j];
    var more := map j | j in opts && j in done + {k} :: opts[j];
    forall id
      ensures EntryFrom(prefix, decode, more, prev, id, Lookup(m, id))
    {
      assert EntryFrom(prefix, decode, some, prev, id, Lookup(m, id));
      assert forall j :: j in some ==> j in more && some[j] == more[j];
      assert forall j :: j in more && j !in some ==> j == k;
    }
  }

  lemma EntryAdded<C>(prefix: string, decode: string -> Option<C>, opts: Options, done: set<string>, prev: map<int, C>, m: map<int, C>, k: string, id: int)
    requires k in opts && Names(prefix, k, id) && EntriesSoFar(prefix, decode, opts, done, prev, m)
    ensures var given := Gives(decode, opts[k], prev, id);
            EntriesSoFar(prefix, decode, opts, done + {k}, prev, if given.Some? then m[id := given.value] else m)
  {
    var given := Gives(decode, opts[k], prev, id);
    var m' := if given.Some? then m[id := given.value] else m;
    var some := map j | j in opts && j in done :: opts[j];
    var more := map j | j in opts && j in done + {k} :: opts[j];
    assert forall j :: j in some ==> j in more && some[j] == more[j];
    assert forall j :: j in more && j !in some ==> j == k;
    assert k in more && more[k] == opts[k];
    forall other
      ensures EntryFrom(prefix, decode, more, prev, other, Lookup(m', other))
    {
      assert EntryFrom(prefix, decode, some, prev, other, Lookup(m, other));
      assert other != id ==> !Names(prefix, k, other);
    }
  }

  // ----- which entries are determined -----

  ghost predicate Gifts<C>(prefix: string, decode: string -> Option<C>, opts: Options, prev: map<int, C>, id: int, k: string) {
    k in opts && Names(prefix, k, id) && Gives(decode, opts[k], prev, id).Some?
  }

  /** The entry does not depend on the order exactly when the options naming the channel give one value. */
  lemma EntryDetermined<C(!new)>(prefix: string, decode: string -> Option<C>, opts: Options, prev: map<int, C>, id: int)
    ensures (forall a, b :: EntryFrom(prefix, decode, opts, prev, id, a) && EntryFrom(prefix, decode, opts, prev, id, b) ==> a == b)
            <==> forall j, k :: Gifts(prefix, decode, opts, prev, id, j) && Gifts(prefix, decode, opts, prev, id, k) ==>
                   Gives(decode, opts[j], prev, id) == Gives(decode, opts[k], prev, id)
  {
    forall k | Gifts(prefix, decode, opts, prev, id, k)
      ensures EntryFrom(prefix, decode, opts, prev, id, Gives(decode, opts[k], prev, id))
    {
    }
    forall a, b | EntryFrom(prefix, decode, opts, prev, id, a) && EntryFrom(prefix, decode, opts, prev, id, b) && a != b
      ensures exists j, k :: Gifts(prefix, decode, opts, prev, id, j) && Gifts(prefix, decode, opts, prev, id, k)
                             && Gives(decode, opts[j], prev, id) != Gives(decode, opts[k], prev, id)
    {
      assert a.Some? && b.Some?;
      var j :| j in opts && Names(prefix, j, id) && Gives(decode, opts[j], prev, id) == a;
      var k :| k in opts && Names(prefix, k, id) && Gives(decode, opts[k], prev, id) == b;
      assert Gifts(prefix, decode, opts, prev, id, j) && Gifts(prefix, decode, opts, prev, id, k);
    }
  }

  /** Two spellings of one number: either value can end up in the snapshot. */
  lemma SpelledTwice<C(!new)>(decode: string -> Option<C>, a: string, b: string, prev: map<int, C>)
    requires decode(a).Some? && decode(b).Some? && decode(a) != decode(b)
    ensures var opts := map[BALANCE_PREFIX + "7" := a, BALANCE_PREFIX + "07" := b];
            && EntryFrom(BALANCE_PREFIX, decode, opts, prev, 7, decode(a))
            && EntryFrom(BALANCE_PREFIX, decode, opts, prev, 7, decode(b))
  {
    var j, k := BALANCE_PREFIX + "7", BALANCE_PREFIX + "07";
    assert j[|BALANCE_PREFIX|..] == "7" && k[|BALANCE_PREFIX|..] == "07";
    assert ValueOf("7") == 7 && ValueOf("0") == 0 && "07"[..1] == "0";
    assert Names(BALANCE_PREFIX, j, 7) && Names(BALANCE_PREFIX, k, 7);
    assert j != k by { assert |j| != |k|; }
  }

  /** Every option of a kind names its channel in plain decimal. */
  ghost predicate Canonical(prefix: string, opts: Options) {
    forall k, id :: k in opts && Names(prefix, k, id) ==> k == prefix + Itoa(id)
  }

  function Key(prefix: string, id: int): string { prefix + Itoa(id) }

  /** With canonical keys the entry is a function of the one option that names the channel. */
  lemma CanonicalEntry<C>(prefix: string, decode: string -> Option<C>, opts: Options, prev: map<int, C>, id: int, entry: Option<C>)
    requires Canonical(prefix, opts) && MIN_INT <= id <= MAX_INT
    requires EntryFrom(prefix, decode, opts, prev, id, entry)
    ensures entry == if Key(prefix, id) in opts then Gives(decode, opts[Key(prefix, id)], prev, id) else None
  {
    AtoiOfItoa(id);
    var key := Key(prefix, id);
    assert prefix <= key && key[|prefix|..] == Itoa(id);
    assert Names(prefix, key, id);
  }

  // ----- a history of polls -----

  class OptionsPoller {
    var settings: Option<Settings>

    constructor ()
      ensures settings == None
    {
      settings := None;
    }

    /** A failed poll leaves the snapshot alone; None stands for it. */
    method Refresh(lib: Library, poll: Option<Options>) returns (err: bool)
      modifies this
      ensures Refreshed(lib, old(settings), poll, settings)
      ensures err == poll.None?
    {
      if poll.None? {
        return true;
      }
      var st := ParseSettings(lib, poll.value, settings);
      settings := Some(st);
      return false;
    }
  }

  ghost predicate Refreshed(lib: Library, before: Option<Settings>, poll: Option<Options>, after: Option<Settings>) {
    if poll.None? then after == before
    else after.Some? && Folded(lib, poll.value, before, after.value)
  }

  /** snaps are the snapshots before, between and after the polls of a fresh poller. */
  ghost predicate History(lib: Library, polls: seq<Option<Options>>, snaps: seq<Option<Settings>>) {
    && |snaps| == |polls| + 1
    && snaps[0].None?
    && forall i :: 0 <= i < |polls| ==> Refreshed(lib, snaps[i], polls[i], snaps[i + 1])
  }

  /** The poll leaves the channel's entry as it was: it failed, or its value cannot be decoded. */
  predicate Keeps<C>(prefix: string, decode: string -> Option<C>, poll: Option<Options>, id: int) {
    poll.Some? ==> Key(prefix, id) in poll.value && decode(poll.value[Key(prefix, id)]).None?
  }

  /** The poll sets the channel's entry to cfg. */
  predicate Sets<C(==)>(prefix: string, decode: string -> Option<C>, poll: Option<Options>, id: int, cfg: C) {
    poll.Some? && Key(prefix, id) in poll.value && decode(poll.value[Key(prefix, id)]) == Some(cfg)
  }

  /** Poll j set the value, and every poll after it kept what was there. */
  ghost predicate LastSet<C>(prefix: string, decode: string -> Option<C>, polls: seq<Option<Options>>, id: int, j: int, cfg: C) {
    0 <= j < |polls| && Sets(prefix, decode, polls[j], id, cfg) && forall i :: j < i < |polls| ==> Keeps(prefix, decode, polls[i], id)
  }

  ghost predicate CanonicalPolls(prefix: string, polls: seq<Option<Options>>) {
    forall i :: 0 <= i < |polls| && polls[i].Some? ==> Canonical(prefix, polls[i].value)
  }

  /** How the entries of one kind change: entries[i] before poll i. */
  ghost predicate EntryHistory<C>(prefix: string, decode: string -> Option<C>, polls: seq<Option<Options>>, entries: seq<map<int, C>>) {
    && |entries| == |polls| + 1
    && entries[0] == map[]
    && forall i :: 0 <= i < |polls| ==> EntriesStep(prefix, decode, polls[i], entries[i], entries[i + 1])
  }

  ghost predicate EntriesStep<C>(prefix: string, decode: string -> Option<C>, poll: Option<Options>, before: map<int, C>, after: map<int, C>) {
    if poll.None? then after == before
    else forall id :: EntryFrom(prefix, decode, poll.value, before, id, Lookup(after, id))
  }

  lemma LastSetStep<C(!new)>(prefix: string, decode: string -> Option<C>, polls: seq<Option<Options>>, poll: Option<Options>, id: int, cfg: C)
    ensures (exists j :: LastSet(prefix, decode, polls + [poll], id, j, cfg))
            <==> Sets(prefix, decode, poll, id, cfg)
                 || (Keeps(prefix, decode, poll, id) && exists j :: LastSet(prefix, decode, polls, id, j, cfg))
  {
    var more, n := polls + [poll], |polls|;
    assert more[n] == poll && forall i :: 0 <= i < n ==> more[i] == polls[i];
    if Sets(prefix, decode, poll, id, cfg) {
      assert LastSet(prefix, decode, more, id, n, cfg);
    }
    forall j | LastSet(prefix, decode, polls, id, j, cfg) && Keeps(prefix, decode, poll, id)
      ensures LastSet(prefix, decode, more, id, j, cfg)
    {
    }
    forall j | LastSet(prefix, decode, more, id, j, cfg) && j < n
      ensures LastSet(prefix, decode, polls, id, j, cfg) && Keeps(prefix, decode, poll, id)
    {
    }
  }

  lemma EntryFollows<C>(prefix: string, decode: string -> Option<C>, poll: Option<Options>, before: map<int, C>, after: map<int, C>, id: int, cfg: C)
    requires EntriesStep(prefix, decode, poll, before, after) && MIN_INT <= id <= MAX_INT
    requires poll.Some? ==> Canonical(prefix, poll.value)
    ensures Lookup(after, id) == Some(cfg)
            <==> Sets(prefix, decode, poll, id, cfg) || (Keeps(prefix, decode, poll, id) && Lookup(before, id) == Some(cfg))
  {
    if poll.Some? {
      CanonicalEntry(prefix, decode, poll.value, before, id, Lookup(after, id));
    }
  }

  /**
   * After any polls with canonical keys, an entry is the last value that could be decoded
   * since the option was last absent, and there is an entry only if there is such a value.
   */
  lemma {:induction false} EntryIsLastSet<C(!new)>(prefix: string, decode: string -> Option<C>, polls: seq<Option<Options>>,
                                                   entries: seq<map<int, C>>, id: int, cfg: C)
    requires EntryHistory(prefix, decode, polls, entries) && CanonicalPolls(prefix, polls) && MIN_INT <= id <= MAX_INT
    ensures Lookup(entries[|polls|], id) == Some(cfg) <==> exists j :: LastSet(prefix, decode, polls, id, j, cfg)
    decreases |polls|
  {
    if polls != [] {
      var n := |polls| - 1;
      EntryIsLastSet(prefix, decode, polls[..n], entries[..n + 1], id, cfg);
      EntryFollows(prefix, decode, polls[n], entries[n], entries[n + 1], id, cfg);
      assert polls == polls[..n] + [polls[n]];
      LastSetStep(prefix, decode, polls[..n], polls[n], id, cfg);
    }
  }

  /** The history of the snapshots, for both kinds of entries. */
  lemma SnapshotEntries(lib: Library, polls: seq<Option<Options>>, snaps: seq<Option<Settings>>, id: int, b: BalanceCfg, r: RotationCfg)
    requires History(lib, polls, snaps) && MIN_INT <= id <= MAX_INT
    requires CanonicalPolls("keypool.balance.", polls) && CanonicalPolls("keypool.rotation.", polls)
    ensures Lookup(BalanceOf(snaps[|polls|]), id) == Some(b) <==> exists j :: LastSet("keypool.balance.", lib.balance, polls, id, j, b)
    ensures Lookup(RotationOf(snaps[|polls|]), id) == Some(r) <==> exists j :: LastSet("keypool.rotation.", lib.rotation, polls, id, j, r)
  {
    var balances := seq(|snaps|, i requires 0 <= i < |snaps| => BalanceOf(snaps[i]));
    var rotations := seq(|snaps|, i requires 0 <= i < |snaps| => RotationOf(snaps[i]));
    forall i | 0 <= i < |polls|
      ensures EntriesStep(BALANCE_PREFIX, lib.balance, polls[i], balances[i], balances[i + 1])
      ensures EntriesStep(ROTATION_PREFIX, lib.rotation, polls[i], rotations[i], rotations[i + 1])
    {
      assert Refreshed(lib, snaps[i], polls[i], snaps[i + 1]);
    }
    EntryIsLastSet(BALANCE_PREFIX, lib.balance, polls, balances, id, b);
    EntryIsLastSet(ROTATION_PREFIX, lib.rotation, polls, rotations, id, r);
  }

  /** What a poll says of the status codes: None if it failed or they do not parse; unset or blank counts as "401". */
  function CodesOf(poll: Option<Options>): Option<seq<CodeRange>> {
    if poll.None? then None
    else
      var text := if "AutomaticDisableStatusCodes" in poll.value then poll.value["AutomaticDisableStatusCodes"] else "";
      if AllSpace(text) then Some([CodeRange(401, 401)])
      else
        var parsed := CodeRanges.Parse(text);
        if parsed.Ranges? then Some(parsed.ranges) else None
  }

  lemma CodesRead(opts: Options, prev: Option<Settings>)
    ensures CodesAfter(opts, prev) == if CodesOf(Some(opts)).Some? then CodesOf(Some(opts)).value
                                      else if prev.Some? then prev.value.disableCodeRanges
                                      else [CodeRange(401, 401)]
  {
    DefaultCodes();
    TrimTwice(Value(opts, OPT_STATUS_CODES));
  }

  lemma CodesStep(lib: Library, before: Option<Settings>, poll: Option<Options>, after: Option<Settings>)
    requires Refreshed(lib, before, poll, after)
    ensures CodesIn(after) == if CodesOf(poll).Some? then CodesOf(poll).value else CodesIn(before)
  {
    if poll.Some? {
      CodesRead(poll.value, before);
    }
  }

  function CodesGiven(polls: seq<Option<Options>>): seq<Option<seq<CodeRange>>> {
    seq(|polls|, i requires 0 <= i < |polls| => CodesOf(polls[i]))
  }

  /** The j-th is the last that is there. */
  ghost predicate LastGiven<C>(given: seq<Option<C>>, j: int, c: C) {
    0 <= j < |given| && given[j] == Some(c) && forall i :: j < i < |given| ==> given[i].None?
  }

  ghost predicate LastOrFirst<C>(given: seq<Option<C>>, first: C, c: C) {
    || (exists j :: LastGiven(given, j, c))
    || (c == first && forall i :: 0 <= i < |given| ==> given[i].None?)
  }

  function Overwritten<C>(given: Option<C>, before: C): C {
    if given.Some? then given.value else before
  }

  /** What is there before, between and after the givings: each overwrites, and none leaves it. */
  ghost predicate Chain<C>(given: seq<Option<C>>, states: seq<C>, first: C) {
    && |states| == |given| + 1 && states[0] == first
    && forall i :: 0 <= i < |given| ==> states[i + 1] == Overwritten(given[i], states[i])
  }

  lemma {:induction false} LastWins<C>(given: seq<Option<C>>, states: seq<C>, first: C)
    requires Chain(given, states, first)
    ensures LastOrFirst(given, first, states[|given|])
    decreases |given|
  {
    if given != [] {
      var n := |given| - 1;
      LastWins(given[..n], states[..n + 1], first);
      assert states[n + 1] == Overwritten(given[n], states[n]);
      if given[n].Some? {
        assert LastGiven(given, n, states[n + 1]);
      } else if j :| LastGiven(given[..n], j, states[n]) {
        assert LastGiven(given, j, states[n + 1]);
      }
    }
  }

  /** The codes in force; before the first snapshot the default stands in. */
  function CodesIn(st: Option<Settings>): seq<CodeRange> {
    if st.Some? then st.value.disableCodeRanges else [CodeRange(401, 401)]
  }

  lemma CodesChain(lib: Library, polls: seq<Option<Options>>, snaps: seq<Option<Settings>>) returns (states: seq<seq<CodeRange>>)
    requires History(lib, polls, snaps)
    ensures Chain(CodesGiven(polls), states, [CodeRange(401, 401)]) && states[|polls|] == CodesIn(snaps[|polls|])
  {
    states := seq(|snaps|, i requires 0 <= i < |snaps| => CodesIn(snaps[i]));
    forall i | 0 <= i < |polls|
      ensures states[i + 1] == Overwritten(CodesGiven(polls)[i], states[i])
    {
      CodesStep(lib, snaps[i], polls[i], snaps[i + 1]);
    }
  }

  /**
   * After any polls, the status codes are those of the last poll whose codes parsed, an unset or
   * blank option counting as "401"; 401 if none did.
   */
  lemma CodesAreLastParsed(lib: Library, polls: seq<Option<Options>>, snaps: seq<Option<Settings>>)
    requires History(lib, polls, snaps)
    ensures LastOrFirst(CodesGiven(polls), [CodeRange(401, 401)], CodesIn(snaps[|polls|]))
  {
    var states := CodesChain(lib, polls, snaps);
    LastWins(CodesGiven(polls), states, [CodeRange(401, 401)]);
  }

  /** An option that is unset or blank counts as "401", whatever was there before. */
  lemma BlankCodes(lib: Library, opts: Options, prev: Option<Settings>, st: Settings)
    requires Folded(lib, opts, prev, st)
    requires "AutomaticDisableStatusCodes" in opts ==> AllSpace(opts["AutomaticDisableStatusCodes"])
    ensures st.disableCodeRanges == [CodeRange(401, 401)]
  {
    CodesRead(opts, prev);
  }

  // ----- switches -----

  /** Equal up to the case of letters; lower is in lower case. */
  predicate SameWord(s: string, lower: string) {
    |s| == |lower| && forall i :: 0 <= i < |s| ==> Lowered(s[i]) == lower[i]
  }

  function Lowered(c: char): char {
    if 'A' <= c <= 'Z' then (c as int - 'A' as int + 'a' as int) as char else c
  }

  /** The option is there and says "true", in capitals or not. */
  predicate On(opts: Options, name: string) {
    name in opts && SameWord(opts[name], "true")
  }

  lemma TrueIff(s: string)
    ensures IsTrue(s) <==> SameWord(s, "true")
  {
    if |s| == 4 {
      assert Lowered(s[0]) == "true"[0] <==> SameLetter(s[0], 't', 'T');
      assert Lowered(s[1]) == "true"[1] <==> SameLetter(s[1], 'r', 'R');
      assert Lowered(s[2]) == "true"[2] <==> SameLetter(s[2], 'u', 'U');
      assert Lowered(s[3]) == "true"[3] <==> SameLetter(s[3], 'e', 'E');
    }
  }

  datatype Switches = Switches(disable: bool, enable: bool)

  function SwitchesOf(poll: Option<Options>): Option<Switches> {
    if poll.None? then None
    else Some(Switches(On(poll.value, "AutomaticDisableChannelEnabled"), On(poll.value, "AutomaticEnableChannelEnabled")))
  }

  function SwitchesGiven(polls: seq<Option<Options>>): seq<Option<Switches>> {
    seq(|polls|, i requires 0 <= i < |polls| => SwitchesOf(polls[i]))
  }

  /** The switches in force; before the first snapshot both are off. */
  function SwitchesIn(st: Option<Settings>): Switches {
    if st.Some? then Switches(st.value.autoDisableOn, st.value.autoEnableOn) else Switches(false, false)
  }

  lemma SwitchesStep(lib: Library, before: Option<Settings>, poll: Option<Options>, after: Option<Settings>)
    requires Refreshed(lib, before, poll, after)
    ensures SwitchesIn(after) == if SwitchesOf(poll).Some? then SwitchesOf(poll).value else SwitchesIn(before)
  {
    if poll.Some? {
      TrueIff(Value(poll.value, OPT_AUTO_DISABLE));
      TrueIff(Value(poll.value, OPT_AUTO_ENABLE));
    }
  }

  lemma SwitchesChain(lib: Library, polls: seq<Option<Options>>, snaps: seq<Option<Settings>>) returns (states: seq<Switches>)
    requires History(lib, polls, snaps)
    ensures Chain(SwitchesGiven(polls), states, Switches(false, false)) && states[|polls|] == SwitchesIn(snaps[|polls|])
  {
    states := seq(|snaps|, i requires 0 <= i < |snaps| => SwitchesIn(snaps[i]));
    forall i | 0 <= i < |polls|
      ensures states[i + 1] == Overwritten(SwitchesGiven(polls)[i], states[i])
    {
      SwitchesStep(lib, snaps[i], polls[i], snaps[i + 1]);
    }
  }

  /** After any polls, both switches are those of the last poll that did not fail; off if all did. */
  lemma SwitchesAreLast(lib: Library, polls: seq<Option<Options>>, snaps: seq<Option<Settings>>)
    requires History(lib, polls, snaps)
    ensures LastOrFirst(SwitchesGiven(polls), Switches(false, false), SwitchesIn(snaps[|polls|]))
  {
    var states := SwitchesChain(lib, polls, snaps);
    LastWins(SwitchesGiven(polls), states, Switches(false, false));
  }

  // ----- keywords -----

  /** Words are the non-empty lines of the text, trimmed and lowered. */
  ghost predicate WordsOf(text: string, lower: string -> string, words: seq<string>) {
    forall w :: w in words <==> w != "" && KeywordOf(Split(text, '\n'), lower, w)
  }

  lemma {:induction false} KeywordsAreWords(lines: seq<string>, lower: string -> string)
    ensures forall w :: w in Keywords(lines, lower) <==> w != "" && KeywordOf(lines, lower, w)
  {
    if lines != [] {
      var n := |lines| - 1;
      KeywordsAreWords(lines[..n], lower);
      KeywordSnoc(lines[..n], lines[n], lower);
      assert lines == lines[..n] + [lines[n]];
    }
  }

  predicate Lists(poll: Option<Options>) {
    poll.Some? && "AutomaticDisableKeywords" in poll.value
  }

  /** Poll j is the last that holds the option. */
  ghost predicate LastListing(polls: seq<Option<Options>>, j: int) {
    0 <= j < |polls| && Lists(polls[j]) && forall i :: j < i < |polls| ==> !Lists(polls[i])
  }

  /** A poll after j succeeded. */
  predicate Succeeded(polls: seq<Option<Options>>, j: int) {
    exists i :: 0 <= i < |polls| && i > j && polls[i].Some?
  }

  /** What a channel's error messages are searched for if nothing is configured. */
  predicate Defaults(words: seq<string>) {
    words == ["your credit balance is too low", "this organization has been disabled.", "you exceeded your current quota",
              "permission denied", "the security token included in the request is invalid", "operation not allowed",
              "your account is not authorized"]
  }

  /** The words of the last poll that holds the option, or the defaults: without any, and once the option is gone if there were no words. */
  ghost predicate WordsAfter(polls: seq<Option<Options>>, lower: string -> string, words: seq<string>) {
    && (forall j :: LastListing(polls, j) ==>
          if WordsOf(polls[j].value["AutomaticDisableKeywords"], lower, []) && Succeeded(polls, j) then Defaults(words)
          else WordsOf(polls[j].value["AutomaticDisableKeywords"], lower, words))
    && ((forall j :: !LastListing(polls, j)) ==> Defaults(words))
  }

  lemma KeywordsStep(lib: Library, before: Option<Settings>, poll: Option<Options>, after: Option<Settings>)
    requires Refreshed(lib, before, poll, after) && poll.Some?
    ensures after.Some?
    ensures if Lists(poll) then WordsOf(poll.value["AutomaticDisableKeywords"], lib.lower, after.value.disableKeywords)
            else after.value.disableKeywords == if before.Some? && before.value.disableKeywords != [] then before.value.disableKeywords
                                                else DEFAULT_KEYWORDS
  {
    if Lists(poll) {
      KeywordsAreWords(Split(poll.value["AutomaticDisableKeywords"], '\n'), lib.lower);
    }
  }

  /** A poll without the option leaves the last listing where it was. */
  lemma ListingStays(polls: seq<Option<Options>>, poll: Option<Options>, j: int)
    requires !Lists(poll)
    ensures LastListing(polls + [poll], j) <==> LastListing(polls, j)
  {
    var more := polls + [poll];
    assert more[|polls|] == poll && forall i :: 0 <= i < |polls| ==> more[i] == polls[i];
    if LastListing(more, j) {
      assert forall i :: j < i < |polls| ==> more[i] == polls[i];
    }
  }

  lemma SucceededSnoc(polls: seq<Option<Options>>, poll: Option<Options>, j: int)
    requires j < |polls|
    ensures Succeeded(polls + [poll], j) <==> Succeeded(polls, j) || poll.Some?
  {
    var more := polls + [poll];
    assert more[|polls|] == poll;
    if i :| 0 <= i < |polls| && i > j && polls[i].Some? {
      assert more[i].Some?;
    }
  }

  /** A failed poll changes nothing. */
  lemma FailureKeepsWords(polls: seq<Option<Options>>, lower: string -> string, words: seq<string>)
    requires WordsAfter(polls, lower, words)
    ensures WordsAfter(polls + [None], lower, words)
  {
    forall j
      ensures LastListing(polls + [None], j) <==> LastListing(polls, j)
      ensures LastListing(polls, j) ==> (polls + [None])[j] == polls[j] && (Succeeded(polls + [None], j) <==> Succeeded(polls, j))
    {
      ListingStays(polls, None, j);
      if LastListing(polls, j) {
        SucceededSnoc(polls, None, j);
      }
    }
  }

  /** A poll with the option decides alone. */
  lemma ListingDecides(polls: seq<Option<Options>>, poll: Option<Options>, lower: string -> string, words: seq<string>)
    requires Lists(poll) && WordsOf(poll.value["AutomaticDisableKeywords"], lower, words)
    ensures WordsAfter(polls + [poll], lower, words)
  {
    var more, n := polls + [poll], |polls|;
    assert more[n] == poll;
    assert LastListing(more, n) && forall j :: LastListing(more, j) ==> j == n;
    assert !Succeeded(more, n);
  }

  /** A poll without the option keeps the words there are, or falls back on the defaults. */
  lemma AbsenceKeepsWords(polls: seq<Option<Options>>, poll: Option<Options>, lower: string -> string, words: seq<string>)
    requires poll.Some? && !Lists(poll) && WordsAfter(polls, lower, words)
    ensures WordsAfter(polls + [poll], lower, if words != [] then words else DEFAULT_KEYWORDS)
  {
    var more := polls + [poll];
    forall j
      ensures LastListing(more, j) <==> LastListing(polls, j)
      ensures LastListing(polls, j) ==> more[j] == polls[j] && Succeeded(more, j)
    {
      ListingStays(polls, poll, j);
      if LastListing(polls, j) {
        SucceededSnoc(polls, poll, j);
      }
    }
    assert words != [] ==> words[0] in words;
  }

  /** Before the first successful poll no option was seen. */
  lemma NothingSeen(polls: seq<Option<Options>>, poll: Option<Options>, lower: string -> string)
    requires !Succeeded(polls, -1) && !Lists(poll)
    ensures WordsAfter(polls + [poll], lower, DEFAULT_KEYWORDS)
  {
    forall j
      ensures !LastListing(polls + [poll], j)
    {
      ListingStays(polls, poll, j);
    }
  }

  /**
   * After any polls, the keywords are the words of the last poll that held the option. They are
   * the defaults if none did, and also once the option is gone after a list without any word.
   */
  lemma {:induction false} KeywordsAreLastListed(lib: Library, polls: seq<Option<Options>>, snaps: seq<Option<Settings>>)
    requires History(lib, polls, snaps)
    ensures snaps[|polls|].Some? <==> Succeeded(polls, -1)
    ensures snaps[|polls|].Some? ==> WordsAfter(polls, lib.lower, snaps[|polls|].value.disableKeywords)
    decreases |polls|
  {
    if polls != [] {
      var n := |polls| - 1;
      var before, poll := polls[..n], polls[n];
      KeywordsAreLastListed(lib, before, snaps[..n + 1]);
      assert polls == before + [poll];
      SucceededSnoc(before, poll, -1);
      KeywordsNext(lib, before, poll, snaps[n], snaps[n + 1]);
    }
  }

  lemma KeywordsNext(lib: Library, polls: seq<Option<Options>>, poll: Option<Options>, before: Option<Settings>, after: Option<Settings>)
    requires Refreshed(lib, before, poll, after)
    requires before.Some? <==> Succeeded(polls, -1)
    requires before.Some? ==> WordsAfter(polls, lib.lower, before.value.disableKeywords)
    ensures after.Some? <==> before.Some? || poll.Some?
    ensures after.Some? ==> WordsAfter(polls + [poll], lib.lower, after.value.disableKeywords)
  {
    if poll.None? {
      if before.Some? {
        FailureKeepsWords(polls, lib.lower, before.value.disableKeywords);
      }
    } else {
      KeywordsStep(lib, before, poll, after);
      if Lists(poll) {
        ListingDecides(polls, poll, lib.lower, after.value.disableKeywords);
      } else if before.Some? {
        AbsenceKeepsWords(polls, poll, lib.lower, before.value.disableKeywords);
      } else {
        NothingSeen(polls, poll, lib.lower);
      }
    }
  }
}
