/**
 Managing the keys of a multi-key channel. Per-key status, disabling time and reason live in maps from the
 key's index, so deleting keys renumbers them; the channel itself is disabled when its last usable key goes
 and restored when one comes back.

 `Persisted` follows `Channel.Update`: an empty key list means "not provided" and keeps the stored keys.
 */
module MultiKey {
  import opened Wrappers

  const ENABLED := 1
  const MANUALLY_DISABLED := 2
  const AUTO_DISABLED := 3
  const ALL_KEYS_DISABLED := "All keys are disabled"

  datatype Channel = Channel(
    keys: seq<string>,
    size: int,
    statusList: map<int, int>,
    disabledTime: map<int, int>,
    disabledReason: map<int, string>,
    status: int,
    statusReason: string)

  // ----- What is reported about a key -----

  function KeyStatus(ch: Channel, i: int): int {
    if i in ch.statusList then ch.statusList[i] else ENABLED
  }

  function KeyDisabledTime(ch: Channel, i: int): int {
    if KeyStatus(ch, i) != ENABLED && i in ch.disabledTime then ch.disabledTime[i] else 0
  }

  function KeyDisabledReason(ch: Channel, i: int): string {
    if KeyStatus(ch, i) != ENABLED && i in ch.disabledReason then ch.disabledReason[i] else ""
  }

  predicate HasEnabledKey(ch: Channel) {
    exists i :: 0 <= i < |ch.keys| && KeyStatus(ch, i) == ENABLED
  }

  // ----- Channel status -----

  function DisableIfUnavailable(ch: Channel): Channel {
    if HasEnabledKey(ch) || ch.status != ENABLED then ch
    else ch.(status := MANUALLY_DISABLED, statusReason := ALL_KEYS_DISABLED)
  }

  function RestoreIfAvailable(ch: Channel): Channel {
    if ch.status != MANUALLY_DISABLED || !HasEnabledKey(ch) || ch.statusReason != ALL_KEYS_DISABLED then ch
    else ch.(status := ENABLED, statusReason := "")
  }

  function Persisted(ch: Channel, storedKeys: seq<string>): Channel {
    var keys := if ch.keys == [] then storedKeys else ch.keys;
    ch.(keys := keys, size := |keys|, statusList := map i | i in ch.statusList && i < |keys| :: ch.statusList[i])
  }

  // ----- Deleting keys renumbers the rest -----

  /** The indices below `n` outside `gone`, in order. */
  function Survivors(n: nat, gone: set<int>): (r: seq<int>)
    ensures forall j :: 0 <= j < |r| ==> 0 <= r[j] < n && r[j] !in gone
    ensures forall i, j :: 0 <= i < j < |r| ==> r[i] < r[j]
  {
    if n == 0 then []
    else
      var front := Survivors(n - 1, gone);
      if n - 1 in gone then front else front + [n - 1]
  }

  lemma {:induction false} SurvivorsComplete(n: nat, gone: set<int>, i: nat)
    requires i < n && i !in gone
    ensures i in Survivors(n, gone)
  {
    if i < n - 1 {
      SurvivorsComplete(n - 1, gone, i);
    }
  }

  lemma {:induction false} NoSurvivors(n: nat, gone: set<int>)
    requires forall i :: 0 <= i < n ==> i in gone
    ensures Survivors(n, gone) == []
  {
    if n > 0 {
      NoSurvivors(n - 1, gone);
    }
  }

  predicate IndicesOf(survivors: seq<int>, n: nat) {
    forall j :: 0 <= j < |survivors| ==> 0 <= survivors[j] < n
  }

  function Pick(keys: seq<string>, survivors: seq<int>): (r: seq<string>)
    requires IndicesOf(survivors, |keys|)
    ensures |r| == |survivors| && forall j :: 0 <= j < |r| ==> r[j] == keys[survivors[j]]
  {
    if survivors == [] then []
    else Pick(keys, survivors[..|survivors| - 1]) + [keys[survivors[|survivors| - 1]]]
  }

  function Renumber<T>(m: map<int, T>, survivors: seq<int>): map<int, T> {
    map j | 0 <= j < |survivors| && survivors[j] in m :: m[survivors[j]]
  }

  /** Copies the entry at the old index, if there is one, to the new index. */
  function Carry<T>(m: map<int, T>, i: int, renumbered: map<int, T>, newIndex: int): map<int, T> {
    if i in m then renumbered[newIndex := m[i]] else renumbered
  }

  function Disabled(m: map<int, int>): map<int, int> {
    map i | i in m && m[i] != ENABLED :: m[i]
  }

  function OfDisabled<T>(m: map<int, T>, statusList: map<int, int>): map<int, T> {
    map i | i in m && i in statusList && statusList[i] != ENABLED :: m[i]
  }

  /** The key list with its three index-keyed maps. */
  datatype KeyTable = KeyTable(keys: seq<string>, status: map<int, int>, time: map<int, int>, reason: map<int, string>)

  const EMPTY_TABLE := KeyTable([], map[], map[], map[])

  function Kept(t: KeyTable, survivors: seq<int>): KeyTable
    requires IndicesOf(survivors, |t.keys|)
  {
    KeyTable(Pick(t.keys, survivors), Renumber(t.status, survivors), Renumber(t.time, survivors), Renumber(t.reason, survivors))
  }

  /** Appends key `i` of a table under the next free index. */
  function CopyKey(t: KeyTable, i: int, copy: KeyTable): KeyTable
    requires 0 <= i < |t.keys|
  {
    var newIndex := |copy.keys|;
    KeyTable(copy.keys + [t.keys[i]], Carry(t.status, i, copy.status, newIndex),
             Carry(t.time, i, copy.time, newIndex), Carry(t.reason, i, copy.reason, newIndex))
  }

  lemma KeptNone(t: KeyTable)
    ensures Kept(t, []) == EMPTY_TABLE
  {
  }

  lemma KeptNext(t: KeyTable, survivors: seq<int>, i: int)
    requires IndicesOf(survivors, |t.keys|) && 0 <= i < |t.keys|
    ensures IndicesOf(survivors + [i], |t.keys|)
    ensures Kept(t, survivors + [i]) == CopyKey(t, i, Kept(t, survivors))
  {
    PickNext(t.keys, survivors, i);
    RenumberNext(t.status, survivors, i);
    RenumberNext(t.time, survivors, i);
    RenumberNext(t.reason, survivors, i);
  }

  function Renumbered(ch: Channel, survivors: seq<int>, times: map<int, int>, reasons: map<int, string>): Channel
    requires IndicesOf(survivors, |ch.keys|)
  {
    ch.(keys := Pick(ch.keys, survivors),
    size := |survivors|,
    statusList := Renumber(Disabled(ch.statusList), survivors),
    disabledTime := Renumber(times, survivors),
    disabledReason := Renumber(reasons, survivors))
  }

  function WithoutKeys(ch: Channel, gone: set<int>, times: map<int, int>, reasons: map<int, string>): Channel {
    Renumbered(ch, Survivors(|ch.keys|, gone), times, reasons)
  }

  function AutoDisabledKeys(ch: Channel): set<int> {
    set i | 0 <= i < |ch.keys| && KeyStatus(ch, i) == AUTO_DISABLED
  }

  // ----- Actions -----

  datatype Action =
    | DisableKey(index: Option<int>)
    | EnableKey(index: Option<int>)
    | EnableAllKeys
    | DisableAllKeys
    | DeleteKey(index: Option<int>)
    | DeleteDisabledKeys

  function EnabledBelowSize(ch: Channel): set<int> {
    set i | 0 <= i < ch.size && KeyStatus(ch, i) == ENABLED
  }

  predicate InRange(ch: Channel, index: Option<int>) {
    index.Some? && 0 <= index.value < ch.size
  }

  /** The requests that are refused without touching the channel. */
  predicate Refused(ch: Channel, a: Action) {
    match a
    case DisableKey(index) => !InRange(ch, index)
    case EnableKey(index) => !InRange(ch, index)
    case EnableAllKeys => false
    case DisableAllKeys => EnabledBelowSize(ch) == {}
    case DeleteKey(index) => !InRange(ch, index) || Survivors(|ch.keys|, {index.value}) == []
    case DeleteDisabledKeys => AutoDisabledKeys(ch) == {}
  }

  /** The channel object just before it is written. */
  function Edited(ch: Channel, a: Action): Channel
    requires !Refused(ch, a)
  {
    match a
    case DisableKey(index) =>
      DisableIfUnavailable(ch.(statusList := ch.statusList[index.value := MANUALLY_DISABLED]))
    case EnableKey(index) =>
      RestoreIfAvailable(ch.(statusList := ch.statusList - {index.value},
                         disabledTime := ch.disabledTime - {index.value},
                         disabledReason := ch.disabledReason - {index.value}))
    case EnableAllKeys =>
      RestoreIfAvailable(ch.(statusList := map[], disabledTime := map[], disabledReason := map[]))
    case DisableAllKeys =>
      DisableIfUnavailable(ch.(statusList := ch.statusList + map i | i in EnabledBelowSize(ch) :: MANUALLY_DISABLED))
    case DeleteKey(index) =>
      DisableIfUnavailable(WithoutKeys(ch, {index.value}, ch.disabledTime, ch.disabledReason))
    case DeleteDisabledKeys =>
      DisableIfUnavailable(WithoutKeys(ch, AutoDisabledKeys(ch), OfDisabled(ch.disabledTime, ch.statusList),
                                       OfDisabled(ch.disabledReason, ch.statusList)))
  }

  function After(ch: Channel, a: Action): Channel {
    if Refused(ch, a) then ch else Persisted(Edited(ch, a), ch.keys)
  }

  function Run(ch: Channel, actions: seq<Action>): Channel {
    if actions == [] then ch else After(Run(ch, actions[..|actions| - 1]), actions[|actions| - 1])
  }

  // ----- Survivors keep their status -----

  predicate MapsInRange(ch: Channel) {
    && (forall i :: i in ch.statusList ==> 0 <= i < |ch.keys|)
    && (forall i :: i in ch.disabledTime ==> 0 <= i < |ch.keys|)
    && (forall i :: i in ch.disabledReason ==> 0 <= i < |ch.keys|)
  }

  /** Key `j` of the renumbered channel is key `i` of the old one and reports the same. */
  predicate SameReport(before: Channel, i: int, after: Channel, j: int)
    requires 0 <= i < |before.keys| && 0 <= j < |after.keys|
  {
    && after.keys[j] == before.keys[i]
    && KeyStatus(after, j) == KeyStatus(before, i)
    && KeyDisabledTime(after, j) == KeyDisabledTime(before, i)
    && KeyDisabledReason(after, j) == KeyDisabledReason(before, i)
  }

  /** After a deletion the remaining keys keep their order, and each reports what it reported before. */
  predicate SurvivorsKept(before: Channel, after: Channel, survivors: seq<int>)
    requires IndicesOf(survivors, |before.keys|)
  {
    && |after.keys| == |survivors| == after.size
    && (forall j :: 0 <= j < |survivors| ==> SameReport(before, survivors[j], after, j))
    && MapsInRange(after)
  }

  /** The maps handed over cover at least the disabled keys. */
  predicate Covers<T(==)>(m: map<int, T>, full: map<int, T>, statusList: map<int, int>) {
    forall i :: i in statusList && statusList[i] != ENABLED ==> (i in m <==> i in full) && (i in m ==> m[i] == full[i])
  }

  lemma RenumberedReports(ch: Channel, survivors: seq<int>, times: map<int, int>, reasons: map<int, string>, j: nat)
    requires IndicesOf(survivors, |ch.keys|) && j < |survivors|
    requires Covers(times, ch.disabledTime, ch.statusList) && Covers(reasons, ch.disabledReason, ch.statusList)
    ensures SameReport(ch, survivors[j], Renumbered(ch, survivors, times, reasons), j)
  {
    var after, i := Renumbered(ch, survivors, times, reasons), survivors[j];
    assert j in after.statusList <==> i in ch.statusList && ch.statusList[i] != ENABLED;
    assert j in after.disabledTime <==> i in times;
    assert j in after.disabledReason <==> i in reasons;
  }

  lemma RenumberedKeepsOthers(ch: Channel, survivors: seq<int>, times: map<int, int>, reasons: map<int, string>)
    requires IndicesOf(survivors, |ch.keys|)
    requires Covers(times, ch.disabledTime, ch.statusList) && Covers(reasons, ch.disabledReason, ch.statusList)
    ensures SurvivorsKept(ch, Renumbered(ch, survivors, times, reasons), survivors)
  {
    forall j | 0 <= j < |survivors| ensures SameReport(ch, survivors[j], Renumbered(ch, survivors, times, reasons), j) {
      RenumberedReports(ch, survivors, times, reasons, j);
    }
  }

  /** Closing the channel and writing it back leave the renumbered lists alone unless the list is empty. */
  lemma WrittenKeepsOthers(before: Channel, edited: Channel, survivors: seq<int>)
    requires IndicesOf(survivors, |before.keys|) && survivors != []
    requires SurvivorsKept(before, edited, survivors)
    ensures SurvivorsKept(before, Persisted(DisableIfUnavailable(edited), before.keys), survivors)
  {
    var closed := DisableIfUnavailable(edited);
    assert (map i | i in closed.statusList && i < |closed.keys| :: closed.statusList[i]) == closed.statusList;
    var after := Persisted(closed, before.keys);
    forall j | 0 <= j < |survivors| ensures SameReport(before, survivors[j], after, j) {
      assert SameReport(before, survivors[j], edited, j);
    }
  }

  lemma AfterDeleteKey(ch: Channel, index: int)
    requires !Refused(ch, DeleteKey(Some(index)))
    ensures Survivors(|ch.keys|, {index}) != []
    ensures After(ch, DeleteKey(Some(index)))
            == Persisted(DisableIfUnavailable(WithoutKeys(ch, {index}, ch.disabledTime, ch.disabledReason)), ch.keys)
  {
  }

  lemma DeleteKeyKeepsOthers(ch: Channel, index: int)
    requires !Refused(ch, DeleteKey(Some(index)))
    ensures SurvivorsKept(ch, After(ch, DeleteKey(Some(index))), Survivors(|ch.keys|, {index}))
  {
    var survivors := Survivors(|ch.keys|, {index});
    AfterDeleteKey(ch, index);
    RenumberedKeepsOthers(ch, survivors, ch.disabledTime, ch.disabledReason);
    WrittenKeepsOthers(ch, WithoutKeys(ch, {index}, ch.disabledTime, ch.disabledReason), survivors);
  }

  lemma DeleteDisabledKeepsOthers(ch: Channel)
    requires !Refused(ch, DeleteDisabledKeys) && Survivors(|ch.keys|, AutoDisabledKeys(ch)) != []
    ensures SurvivorsKept(ch, After(ch, DeleteDisabledKeys), Survivors(|ch.keys|, AutoDisabledKeys(ch)))
  {
    var survivors := Survivors(|ch.keys|, AutoDisabledKeys(ch));
    var times, reasons := OfDisabled(ch.disabledTime, ch.statusList), OfDisabled(ch.disabledReason, ch.statusList);
    RenumberedKeepsOthers(ch, survivors, times, reasons);
    WrittenKeepsOthers(ch, WithoutKeys(ch, AutoDisabledKeys(ch), times, reasons), survivors);
  }

  // ----- What an action does to each key -----

  /** Key `i` stands where it stood and reports what it reported. */
  predicate Unchanged(before: Channel, after: Channel, i: int)
    requires 0 <= i < |before.keys|
  {
    && i < |after.keys| && after.keys[i] == before.keys[i]
    && KeyStatus(after, i) == KeyStatus(before, i)
    && KeyDisabledTime(after, i) == KeyDisabledTime(before, i)
    && KeyDisabledReason(after, i) == KeyDisabledReason(before, i)
  }

  /** Time and reason are reported for a disabled key, as stored, and for no other. */
  lemma ReportsMean(ch: Channel, i: int)
    ensures i !in ch.statusList || ch.statusList[i] == 1 ==>
              KeyStatus(ch, i) == 1 && KeyDisabledTime(ch, i) == 0 && KeyDisabledReason(ch, i) == ""
    ensures i in ch.statusList && ch.statusList[i] != 1 ==>
              && KeyStatus(ch, i) == ch.statusList[i]
              && (i in ch.disabledTime ==> KeyDisabledTime(ch, i) == ch.disabledTime[i])
              && (i in ch.disabledReason ==> KeyDisabledReason(ch, i) == ch.disabledReason[i])
  {
  }

  /** Closing, restoring and writing back the channel leave what is reported about its keys. */
  lemma WrittenKeys(edited: Channel, stored: seq<string>, i: int)
    requires 0 <= i < |edited.keys|
    ensures Unchanged(edited, Persisted(DisableIfUnavailable(edited), stored), i)
    ensures Unchanged(edited, Persisted(RestoreIfAvailable(edited), stored), i)
  {
  }

  /** Disabling a key makes that key manually disabled, and no other key reports anything new. */
  lemma DisableKeyMeans(ch: Channel, index: int, i: int)
    requires 0 <= index < ch.size && 0 <= i < |ch.keys|
    ensures var after := After(ch, DisableKey(Some(index)));
            && after.keys == ch.keys
            && (i == index ==> KeyStatus(after, i) == MANUALLY_DISABLED)
            && (i != index ==> Unchanged(ch, after, i))
  {
    WrittenKeys(ch.(statusList := ch.statusList[index := MANUALLY_DISABLED]), ch.keys, i);
  }

  /** Enabling a key makes that key enabled, without time and reason, and leaves the others. */
  lemma EnableKeyMeans(ch: Channel, index: int, i: int)
    requires 0 <= index < ch.size && 0 <= i < |ch.keys|
    ensures var after := After(ch, EnableKey(Some(index)));
            && after.keys == ch.keys
            && (i == index ==> KeyStatus(after, i) == ENABLED && i !in after.disabledTime && i !in after.disabledReason)
            && (i != index ==> Unchanged(ch, after, i))
  {
    WrittenKeys(ch.(statusList := ch.statusList - {index}, disabledTime := ch.disabledTime - {index},
                    disabledReason := ch.disabledReason - {index}), ch.keys, i);
  }

  lemma EnableAllMeans(ch: Channel, i: int)
    requires 0 <= i < |ch.keys|
    ensures var after := After(ch, EnableAllKeys);
            after.keys == ch.keys && KeyStatus(after, i) == ENABLED && after.disabledTime == map[] && after.disabledReason == map[]
  {
  }

  /** Disabling all keys turns exactly the enabled ones manually disabled; a key that was disabled before, by hand or
      automatically, keeps its status, time and reason. It is refused exactly when no key is enabled. */
  lemma DisableAllMeans(ch: Channel, i: int)
    requires ch.size == |ch.keys| && 0 <= i < |ch.keys|
    ensures var after := After(ch, DisableAllKeys);
            && after.keys == ch.keys
            && (KeyStatus(ch, i) == ENABLED ==> KeyStatus(after, i) == MANUALLY_DISABLED)
            && (KeyStatus(ch, i) != ENABLED ==> Unchanged(ch, after, i))
            && (Refused(ch, DisableAllKeys) <==> !HasEnabledKey(ch))
  {
    assert KeyStatus(ch, i) == ENABLED ==> i in EnabledBelowSize(ch);
    if HasEnabledKey(ch) {
      var j :| 0 <= j < |ch.keys| && KeyStatus(ch, j) == ENABLED;
      assert j in EnabledBelowSize(ch);
      WrittenKeys(ch.(statusList := ch.statusList + map k | k in EnabledBelowSize(ch) :: MANUALLY_DISABLED), ch.keys, i);
    }
  }

  /** Which keys a deletion leaves: all but the one asked for, or all that are not automatically disabled. */
  lemma DeletionsMean(ch: Channel, index: int, i: int)
    requires 0 <= i < |ch.keys|
    ensures i in Survivors(|ch.keys|, {index}) <==> i != index
    ensures i in Survivors(|ch.keys|, AutoDisabledKeys(ch)) <==> KeyStatus(ch, i) != 3
  {
    if i != index {
      SurvivorsComplete(|ch.keys|, {index}, i);
    }
    if KeyStatus(ch, i) != AUTO_DISABLED {
      SurvivorsComplete(|ch.keys|, AutoDisabledKeys(ch), i);
    }
  }

  /** Which requests are refused, and that a refused one changes nothing. */
  lemma RefusalsMean(ch: Channel, index: Option<int>)
    requires ch.size == |ch.keys|
    ensures var outside := index.None? || !(0 <= index.value < |ch.keys|);
            && (Refused(ch, DisableKey(index)) <==> outside) && (Refused(ch, EnableKey(index)) <==> outside)
            && (Refused(ch, DeleteKey(index)) <==> outside || |ch.keys| == 1)
    ensures Refused(ch, DeleteDisabledKeys) <==> forall i :: 0 <= i < |ch.keys| ==> KeyStatus(ch, i) != AUTO_DISABLED
    ensures forall a :: Refused(ch, a) ==> After(ch, a) == ch
  {
    if index.Some? && 0 <= index.value < |ch.keys| {
      if |ch.keys| == 1 {
        NoSurvivors(1, {index.value});
      } else {
        var other := if index.value == 0 then 1 else 0;
        SurvivorsComplete(|ch.keys|, {index.value}, other);
      }
    }
    if i :| 0 <= i < |ch.keys| && KeyStatus(ch, i) == AUTO_DISABLED {
      assert i in AutoDisabledKeys(ch);
    }
  }

  // ----- The channel follows its keys -----

  /** Enabled exactly when a key is usable, and otherwise disabled for that very reason. */
  predicate FollowsKeys(ch: Channel) {
    && ch.size == |ch.keys| > 0
    && (ch.status == ENABLED <==> HasEnabledKey(ch))
    && (ch.status != ENABLED ==> ch.status == MANUALLY_DISABLED && ch.statusReason == ALL_KEYS_DISABLED)
  }

  predicate AllAutoDisabled(ch: Channel) {
    forall i :: 0 <= i < |ch.keys| ==> KeyStatus(ch, i) == AUTO_DISABLED
  }

  /** Deleting the auto-disabled keys while there are no others is the one action that breaks the link. */
  predicate DeletesEveryKey(ch: Channel, a: Action) {
    a.DeleteDisabledKeys? && AllAutoDisabled(ch)
  }

  lemma PersistedChannel(ch: Channel, stored: seq<string>)
    ensures var p := Persisted(ch, stored);
            && p.size == |p.keys| && p.status == ch.status && p.statusReason == ch.statusReason
            && (ch.keys != [] ==> p.keys == ch.keys && HasEnabledKey(p) == HasEnabledKey(ch))
  {
    var p := Persisted(ch, stored);
    assert forall i :: 0 <= i < |p.keys| ==> KeyStatus(p, i) == KeyStatus(ch, i);
  }

  /** Closing the channel when no key is left usable re-establishes the link from an enabled channel. */
  lemma DisableEstablishes(before: Channel, ch: Channel)
    requires FollowsKeys(before) && ch.status == before.status && ch.statusReason == before.statusReason && ch.keys != []
    requires HasEnabledKey(ch) ==> HasEnabledKey(before)
    ensures FollowsKeys(Persisted(DisableIfUnavailable(ch), before.keys))
  {
    var edited := DisableIfUnavailable(ch);
    assert edited.keys == ch.keys && edited.statusList == ch.statusList;
    assert forall i :: KeyStatus(edited, i) == KeyStatus(ch, i);
    PersistedChannel(edited, before.keys);
  }

  lemma RestoreEstablishes(before: Channel, ch: Channel)
    requires FollowsKeys(before) && ch.status == before.status && ch.statusReason == before.statusReason && ch.keys != []
    requires HasEnabledKey(before) ==> HasEnabledKey(ch)
    ensures FollowsKeys(Persisted(RestoreIfAvailable(ch), before.keys))
  {
    var edited := RestoreIfAvailable(ch);
    assert forall i :: KeyStatus(edited, i) == KeyStatus(ch, i);
    PersistedChannel(edited, before.keys);
  }

  lemma SurvivorWasEnabled(before: Channel, after: Channel, survivors: seq<int>)
    requires IndicesOf(survivors, |before.keys|) && SurvivorsKept(before, after, survivors)
    ensures HasEnabledKey(after) ==> HasEnabledKey(before)
  {
    if HasEnabledKey(after) {
      var j :| 0 <= j < |after.keys| && KeyStatus(after, j) == ENABLED;
      assert SameReport(before, survivors[j], after, j);
      assert KeyStatus(before, survivors[j]) == ENABLED;
    }
  }

  lemma EnabledSurvivor(ch: Channel, gone: set<int>, times: map<int, int>, reasons: map<int, string>)
    requires Covers(times, ch.disabledTime, ch.statusList) && Covers(reasons, ch.disabledReason, ch.statusList)
    ensures HasEnabledKey(WithoutKeys(ch, gone, times, reasons)) ==> HasEnabledKey(ch)
  {
    var survivors := Survivors(|ch.keys|, gone);
    RenumberedKeepsOthers(ch, survivors, times, reasons);
    SurvivorWasEnabled(ch, WithoutKeys(ch, gone, times, reasons), survivors);
  }

  /** Each action keeps the channel in step with its keys, except for the one case above. */
  lemma ActionKeepsLink(ch: Channel, a: Action)
    requires FollowsKeys(ch) && !DeletesEveryKey(ch, a)
    ensures FollowsKeys(After(ch, a))
  {
    if !Refused(ch, a) {
      match a
      case DisableKey(index) =>
        var next := ch.(statusList := ch.statusList[index.value := MANUALLY_DISABLED]);
        if HasEnabledKey(next) {
          var i :| 0 <= i < |next.keys| && KeyStatus(next, i) == ENABLED;
          assert KeyStatus(ch, i) == ENABLED;
        }
        DisableEstablishes(ch, next);
      case EnableKey(index) =>
        var next := ch.(statusList := ch.statusList - {index.value}, disabledTime := ch.disabledTime - {index.value},
        disabledReason := ch.disabledReason - {index.value});
        assert KeyStatus(next, index.value) == ENABLED;
        RestoreEstablishes(ch, next);
      case EnableAllKeys =>
        var next := ch.(statusList := map[], disabledTime := map[], disabledReason := map[]);
        assert KeyStatus(next, 0) == ENABLED;
        RestoreEstablishes(ch, next);
      case DisableAllKeys =>
        var next := ch.(statusList := ch.statusList + map i | i in EnabledBelowSize(ch) :: MANUALLY_DISABLED);
        forall i | 0 <= i < |ch.keys| ensures KeyStatus(next, i) != ENABLED {
          assert KeyStatus(ch, i) == ENABLED ==> i in EnabledBelowSize(ch);
        }
        DisableEstablishes(ch, next);
      case DeleteKey(index) =>
        EnabledSurvivor(ch, {index.value}, ch.disabledTime, ch.disabledReason);
        DisableEstablishes(ch, WithoutKeys(ch, {index.value}, ch.disabledTime, ch.disabledReason));
      case DeleteDisabledKeys =>
        var times, reasons := OfDisabled(ch.disabledTime, ch.statusList), OfDisabled(ch.disabledReason, ch.statusList);
        EnabledSurvivor(ch, AutoDisabledKeys(ch), times, reasons);
        var i :| 0 <= i < |ch.keys| && KeyStatus(ch, i) != AUTO_DISABLED;
        SurvivorsComplete(|ch.keys|, AutoDisabledKeys(ch), i);
        DisableEstablishes(ch, WithoutKeys(ch, AutoDisabledKeys(ch), times, reasons));
    }
  }

  /** Deleting every key empties the list in memory only: the stored keys come back, all enabled, under a
      channel that stays disabled. */
  lemma DeletingEveryKeyRevivesThem(ch: Channel, a: Action)
    requires FollowsKeys(ch) && DeletesEveryKey(ch, a)
    ensures var after := After(ch, a);
            && after.keys == ch.keys
            && (forall i :: 0 <= i < |after.keys| ==> KeyStatus(after, i) == ENABLED)
            && after.status == MANUALLY_DISABLED
            && !FollowsKeys(after)
  {
    assert 0 in AutoDisabledKeys(ch);
    var survivors := Survivors(|ch.keys|, AutoDisabledKeys(ch));
    assert forall i :: 0 <= i < |ch.keys| ==> i in AutoDisabledKeys(ch);
    NoSurvivors(|ch.keys|, AutoDisabledKeys(ch));
    assert !HasEnabledKey(ch);
    var edited := Edited(ch, a);
    assert edited.keys == [] && edited.statusList == map[] && edited.status == ch.status;
    var after := After(ch, a);
    assert after.statusList == map[];
    assert KeyStatus(after, 0) == ENABLED;
  }

  /** The link survives an action if and only if the action does not delete every key. */
  lemma LinkKeptIff(ch: Channel, a: Action)
    requires FollowsKeys(ch)
    ensures FollowsKeys(After(ch, a)) <==> !DeletesEveryKey(ch, a)
  {
    if DeletesEveryKey(ch, a) {
      DeletingEveryKeyRevivesThem(ch, a);
    } else {
      ActionKeepsLink(ch, a);
    }
  }

  /** The channel is enabled after each action exactly when some key is. */
  predicate EnabledThroughout(ch: Channel, actions: seq<Action>) {
    forall n :: 0 <= n <= |actions| ==>
                  (Run(ch, actions[..n]).status == ENABLED <==> HasEnabledKey(Run(ch, actions[..n])))
  }

  predicate NeverDeletesEveryKey(ch: Channel, actions: seq<Action>) {
    forall n :: 0 <= n < |actions| ==> !DeletesEveryKey(Run(ch, actions[..n]), actions[n])
  }

  lemma RunNext(ch: Channel, actions: seq<Action>, n: nat)
    requires n < |actions|
    ensures Run(ch, actions[..n + 1]) == After(Run(ch, actions[..n]), actions[n])
  {
    assert actions[..n + 1][..n] == actions[..n];
  }

  /** Up to the first action that deletes every key the link is kept in full. */
  lemma {:induction false} LinkedPrefix(ch: Channel, actions: seq<Action>, n: nat)
    requires FollowsKeys(ch) && n <= |actions|
    requires forall i :: 0 <= i < n ==> !DeletesEveryKey(Run(ch, actions[..i]), actions[i])
    ensures FollowsKeys(Run(ch, actions[..n]))
  {
    if n > 0 {
      LinkedPrefix(ch, actions, n - 1);
      RunNext(ch, actions, n - 1);
      ActionKeepsLink(Run(ch, actions[..n - 1]), actions[n - 1]);
    }
  }

  /** And that action loses it: the channel is disabled while all its keys are enabled. */
  lemma {:induction false} LinkLost(ch: Channel, actions: seq<Action>, n: nat)
    requires FollowsKeys(ch) && n < |actions| && DeletesEveryKey(Run(ch, actions[..n]), actions[n])
    ensures !EnabledThroughout(ch, actions)
  {
    if i :| 0 <= i < n && DeletesEveryKey(Run(ch, actions[..i]), actions[i]) {
      LinkLost(ch, actions, i);
    } else {
      var before := Run(ch, actions[..n]);
      LinkedPrefix(ch, actions, n);
      RunNext(ch, actions, n);
      DeletingEveryKeyRevivesThem(before, actions[n]);
      var after := Run(ch, actions[..n + 1]);
      assert |after.keys| > 0 && KeyStatus(after, 0) == ENABLED;
    }
  }

  /** A channel in step with its keys, such as an enabled one with a usable key, is enabled exactly when some key is
      after each action of a run, if and only if none of the actions deletes every key it finds. */
  lemma ChannelFollowsKeysIff(ch: Channel, actions: seq<Action>)
    requires FollowsKeys(ch)
    ensures EnabledThroughout(ch, actions) <==> NeverDeletesEveryKey(ch, actions)
  {
    if NeverDeletesEveryKey(ch, actions) {
      forall n | 0 <= n <= |actions|
        ensures Run(ch, actions[..n]).status == ENABLED <==> HasEnabledKey(Run(ch, actions[..n]))
      {
        LinkedPrefix(ch, actions, n);
      }
    } else {
      var n :| 0 <= n < |actions| && DeletesEveryKey(Run(ch, actions[..n]), actions[n]);
      LinkLost(ch, actions, n);
    }
  }

  /** Disabled, but not by the exhaustion of its keys. */
  predicate DisabledOtherwise(ch: Channel) {
    ch.status != ENABLED && !(ch.status == MANUALLY_DISABLED && ch.statusReason == ALL_KEYS_DISABLED)
  }

  /** These actions never re-enable a channel that somebody disabled for another reason. */
  lemma {:induction false} NeverReenabled(ch: Channel, actions: seq<Action>)
    requires DisabledOtherwise(ch)
    ensures DisabledOtherwise(Run(ch, actions))
    ensures Run(ch, actions).status == ch.status && Run(ch, actions).statusReason == ch.statusReason
  {
    if actions != [] {
      NeverReenabled(ch, actions[..|actions| - 1]);
    }
  }

  /** The failing case is within reach of an enabled channel: delete its only usable key, then the rest. */
  lemma LinkLostByDeletions(ch: Channel)
    requires FollowsKeys(ch) && ch.status == ENABLED && |ch.keys| == 2 && KeyStatus(ch, 1) == AUTO_DISABLED
    ensures !FollowsKeys(Run(ch, [DeleteKey(Some(0)), DeleteDisabledKeys]))
  {
    var actions := [DeleteKey(Some(0)), DeleteDisabledKeys];
    var mid := OnlyExhaustedKeyLeft(ch);
    RunTwo(ch, actions);
    DeletingEveryKeyRevivesThem(mid, DeleteDisabledKeys);
  }

  lemma RunTwo(ch: Channel, actions: seq<Action>)
    requires |actions| == 2
    ensures Run(ch, actions) == After(After(ch, actions[0]), actions[1])
  {
    assert actions[..1][..0] == [];
    assert Run(ch, actions[..1]) == After(ch, actions[0]);
  }

  lemma OnlyExhaustedKeyLeft(ch: Channel) returns (mid: Channel)
    requires FollowsKeys(ch) && |ch.keys| == 2 && KeyStatus(ch, 1) == AUTO_DISABLED
    ensures mid == After(ch, DeleteKey(Some(0))) && FollowsKeys(mid) && AllAutoDisabled(mid)
  {
    mid := After(ch, DeleteKey(Some(0)));
    assert FollowsKeys(mid) by {
      ActionKeepsLink(ch, DeleteKey(Some(0)));
    }
    SecondKeyLeft(ch);
  }

  lemma SecondKeyLeft(ch: Channel)
    requires ch.size == |ch.keys| == 2
    ensures var after := After(ch, DeleteKey(Some(0)));
            |after.keys| == 1 && KeyStatus(after, 0) == KeyStatus(ch, 1)
  {
    assert Survivors(1, {0}) == [] && Survivors(2, {0}) == [1];
    DeleteKeyKeepsOthers(ch, 0);
    assert SameReport(ch, 1, After(ch, DeleteKey(Some(0))), 0);
  }

  // ----- The channel object -----

  /** The copying loop of both deletions: walks the keys once and renumbers the ones that stay. */
  method CopyKeys(table: KeyTable, gone: set<int>) returns (copy: KeyTable)
    ensures copy == Kept(table, Survivors(|table.keys|, gone))
  {
    copy := EMPTY_TABLE;
    KeptNone(table);
    ghost var survivors: seq<int> := [];
    for i := 0 to |table.keys|
      invariant survivors == Survivors(i, gone) && IndicesOf(survivors, |table.keys|)
      invariant copy == Kept(table, survivors)
    {
      if i !in gone {
        KeptNext(table, survivors, i);
        copy := CopyKey(table, i, copy);
        survivors := survivors + [i];
      }
    }
  }

  /** The marking loop: walks the indices below the stored size and marks, one by one, the enabled ones. */
  method MarkEnabled(statusList: map<int, int>, size: int, ghost ch: Channel) returns (marked: map<int, int>, disabled: nat)
    requires ch.statusList == statusList && ch.size == size
    ensures marked == statusList + map k | k in EnabledBelowSize(ch) :: MANUALLY_DISABLED
    ensures disabled == |EnabledBelowSize(ch)|
  {
    marked, disabled := statusList, 0;
    assert EnabledBelow(ch, 0) == {};
    hide EnabledBelow;
    var i := 0;
    while i < size
      invariant 0 <= i && (i <= size || i == 0)
      invariant marked == Marked(ch, i) && disabled == |EnabledBelow(ch, i)|
    {
      MarkNext(ch, i);
      if i !in marked || marked[i] == ENABLED {
        marked := marked[i := MANUALLY_DISABLED];
        disabled := disabled + 1;
      }
      i := i + 1;
    }
    MarkedAll(ch, i);
  }

  /** A loaded multi-key channel. Each action edits it in place and writes it back. */
  class ManagedChannel {
    var keys: seq<string>
    var size: int
    var statusList: map<int, int>
    var disabledTime: map<int, int>
    var disabledReason: map<int, string>
    var status: int
    var statusReason: string

    ghost function Value(): Channel
      reads this
    {
      Channel(keys, size, statusList, disabledTime, disabledReason, status, statusReason)
    }

    /** Scans for a usable key and stops at the first. */
    method HasEnabledMultiKey() returns (found: bool)
      ensures found == HasEnabledKey(Value())
    {
      var i := 0;
      while i < |keys|
        invariant 0 <= i <= |keys|
        invariant forall j :: 0 <= j < i ==> KeyStatus(Value(), j) != ENABLED
      {
        if i !in statusList || statusList[i] == ENABLED {
          assert KeyStatus(Value(), i) == ENABLED;
          return true;
        }
        i := i + 1;
      }
      return false;
    }

    method DisableIfNoKeyIsUsable() returns (closeSockets: bool)
      modifies this
      ensures Value() == DisableIfUnavailable(old(Value()))
      ensures closeSockets == !HasEnabledKey(old(Value()))
    {
      var usable := HasEnabledMultiKey();
      if usable {
        return false;
      }
      if status == ENABLED {
        status, statusReason := MANUALLY_DISABLED, ALL_KEYS_DISABLED;
      }
      return true;
    }

    method RestoreIfSomeKeyIsUsable()
      modifies this
      ensures Value() == RestoreIfAvailable(old(Value()))
    {
      if status != MANUALLY_DISABLED {
        return;
      }
      var usable := HasEnabledMultiKey();
      if usable && statusReason == ALL_KEYS_DISABLED {
        status, statusReason := ENABLED, "";
      }
    }

    method Update(storedKeys: seq<string>)
      modifies this
      ensures Value() == Persisted(old(Value()), storedKeys)
    {
      keys := if keys == [] then storedKeys else keys;
      size := |keys|;
      statusList := map i | i in statusList && i < |keys| :: statusList[i];
    }

    method Disable(index: Option<int>) returns (refused: bool)
      modifies this
      ensures refused == Refused(old(Value()), DisableKey(index)) && Value() == After(old(Value()), DisableKey(index))
    {
      if index.None? || index.value < 0 || index.value >= size {
        return true;
      }
      statusList := statusList[index.value := MANUALLY_DISABLED];
      var stored := keys;
      var _ := DisableIfNoKeyIsUsable();
      Update(stored);
      return false;
    }

    method Enable(index: Option<int>) returns (refused: bool)
      modifies this
      ensures refused == Refused(old(Value()), EnableKey(index)) && Value() == After(old(Value()), EnableKey(index))
    {
      if index.None? || index.value < 0 || index.value >= size {
        return true;
      }
      statusList := statusList - {index.value};
      disabledTime := disabledTime - {index.value};
      disabledReason := disabledReason - {index.value};
      var stored := keys;
      RestoreIfSomeKeyIsUsable();
      Update(stored);
      return false;
    }

    method EnableAll()
      modifies this
      ensures Value() == After(old(Value()), EnableAllKeys)
    {
      statusList, disabledTime, disabledReason := map[], map[], map[];
      var stored := keys;
      RestoreIfSomeKeyIsUsable();
      Update(stored);
    }

    /** Marks the keys that are enabled and counts them. */
    method MarkEnabledKeys() returns (disabled: nat)
      modifies this`statusList
      ensures statusList == old(statusList) + map k | k in EnabledBelowSize(old(Value())) :: MANUALLY_DISABLED
      ensures disabled == |EnabledBelowSize(old(Value()))|
    {
      statusList, disabled := MarkEnabled(statusList, size, Value());
    }

    /** Refused when no key is enabled. */
    method DisableAll() returns (refused: bool)
      modifies this
      ensures refused == Refused(old(Value()), DisableAllKeys)
      ensures Value() == After(old(Value()), DisableAllKeys)
    {
      var disabled := MarkEnabledKeys();
      if disabled == 0 {
        assert statusList == old(statusList);
        return true;
      }
      var stored := keys;
      var _ := DisableIfNoKeyIsUsable();
      Update(stored);
      return false;
    }

    /** Takes over the renumbered keys, closes the channel if none of them is usable, and writes it back. */
    method Replace(copy: KeyTable)
      modifies this
      ensures Value() == Persisted(DisableIfUnavailable(
                                     Channel(copy.keys, |copy.keys|, copy.status, copy.time, copy.reason,
                                             old(status), old(statusReason))),
                                   old(keys))
    {
      var stored := keys;
      keys, size := copy.keys, |copy.keys|;
      statusList, disabledTime, disabledReason := copy.status, copy.time, copy.reason;
      var _ := DisableIfNoKeyIsUsable();
      Update(stored);
    }

    /** Refused when nothing would remain. */
    method Delete(index: Option<int>) returns (refused: bool)
      modifies this
      ensures refused == Refused(old(Value()), DeleteKey(index)) && Value() == After(old(Value()), DeleteKey(index))
    {
      if index.None? || index.value < 0 || index.value >= size {
        return true;
      }
      var copy := CopyKeys(KeyTable(keys, Disabled(statusList), disabledTime, disabledReason), {index.value});
      if |copy.keys| == 0 {
        return true;
      }
      Replace(copy);
      return false;
    }

    /** Refused when there is no automatically disabled key. */
    method DeleteDisabled() returns (refused: bool)
      modifies this
      ensures refused == Refused(old(Value()), DeleteDisabledKeys)
      ensures Value() == After(old(Value()), DeleteDisabledKeys)
    {
      var gone := set i | 0 <= i < |keys| && i in statusList && statusList[i] == AUTO_DISABLED;
      assert gone == AutoDisabledKeys(Value());
      if gone == {} {
        return true;
      }
      var copy := CopyKeys(KeyTable(keys, Disabled(statusList), OfDisabled(disabledTime, statusList),
                                    OfDisabled(disabledReason, statusList)), gone);
      Replace(copy);
      return false;
    }
  }

  /** The status list after the first `n` rounds of the marking loop. */
  function Marked(ch: Channel, n: nat): map<int, int> {
    if n == 0 then ch.statusList
    else
      var front := Marked(ch, n - 1);
      if KeyStatus(ch, n - 1) == ENABLED then front[n - 1 := MANUALLY_DISABLED] else front
  }

  function EnabledBelow(ch: Channel, n: nat): set<int> {
    set k | 0 <= k < n && KeyStatus(ch, k) == ENABLED
  }

  lemma {:induction false} MarkedAt(ch: Channel, n: nat, k: int)
    ensures k in Marked(ch, n) <==> k in ch.statusList || k in EnabledBelow(ch, n)
    ensures k in Marked(ch, n) ==>
              Marked(ch, n)[k] == if k in EnabledBelow(ch, n) then MANUALLY_DISABLED else ch.statusList[k]
  {
    if n > 0 {
      MarkedAt(ch, n - 1, k);
    }
  }

  /** The next key is still as it was, so the loop sees its real status. */
  lemma MarkNext(ch: Channel, n: nat)
    ensures n !in Marked(ch, n) || Marked(ch, n)[n] == ENABLED <==> KeyStatus(ch, n) == ENABLED
    ensures |EnabledBelow(ch, n + 1)| == |EnabledBelow(ch, n)| + if KeyStatus(ch, n) == ENABLED then 1 else 0
  {
    MarkedAt(ch, n, n);
    if KeyStatus(ch, n) == ENABLED {
      assert EnabledBelow(ch, n + 1) == EnabledBelow(ch, n) + {n};
    } else {
      assert EnabledBelow(ch, n + 1) == EnabledBelow(ch, n);
    }
  }

  lemma MarkedAll(ch: Channel, n: nat)
    requires if ch.size >= 0 then n == ch.size else n == 0
    ensures Marked(ch, n) == ch.statusList + map k | k in EnabledBelowSize(ch) :: MANUALLY_DISABLED
    ensures EnabledBelow(ch, n) == EnabledBelowSize(ch)
  {
    assert EnabledBelow(ch, n) == EnabledBelowSize(ch);
    var all := ch.statusList + map k | k in EnabledBelowSize(ch) :: MANUALLY_DISABLED;
    forall k ensures k in Marked(ch, n) <==> k in all {
      MarkedAt(ch, n, k);
    }
    forall k | k in all ensures Marked(ch, n)[k] == all[k] {
      MarkedAt(ch, n, k);
    }
  }

  lemma RenumberNext<T>(m: map<int, T>, survivors: seq<int>, i: int)
    ensures Renumber(m, survivors + [i]) == Carry(m, i, Renumber(m, survivors), |survivors|)
  {
  }

  lemma PickNext(keys: seq<string>, survivors: seq<int>, i: int)
    requires IndicesOf(survivors, |keys|) && 0 <= i < |keys|
    ensures IndicesOf(survivors + [i], |keys|)
    ensures Pick(keys, survivors + [i]) == Pick(keys, survivors) + [keys[i]]
  {
    assert (survivors + [i])[..|survivors|] == survivors;
  }
}
