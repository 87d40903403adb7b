/**
  The keys of a multi-key channel: a key list with three sparse maps beside it, indexed by position, that
  are re-indexed when keys are deleted.
 */
module MultiKey {
  import opened ChannelStatus
  import opened Wrappers

  /** The stored columns. A nil map is an empty one. */
  datatype Store = Store(
    keys: seq<string>,
    size: int,
    status: map<int, int>,
    time: map<int, int>,
    reason: map<int, string>)

  function StatusAt(s: Store, i: int): int {
    if i in s.status then s.status[i] else ENABLED
  }

  /** One line of the key list as displayed; time and reason show on disabled keys only. */
  datatype KeyRecord = KeyRecord(key: string, status: int, time: int, reason: string)

  function RecordAt(s: Store, i: nat): KeyRecord
    requires i < |s.keys|
  {
    var status := StatusAt(s, i);
    KeyRecord(s.keys[i], status,
              if status != ENABLED && i in s.time then s.time[i] else 0,
              if status != ENABLED && i in s.reason then s.reason[i] else "")
  }

  /** The displayed list. */
  function Records(s: Store): (r: seq<KeyRecord>)
    ensures |r| == |s.keys|
    ensures forall i :: 0 <= i < |r| ==> r[i] == RecordAt(s, i)
  {
    seq(|s.keys|, i requires 0 <= i < |s.keys| => RecordAt(s, i))
  }

  /** The size is the key count, indices are in range, and only disabled keys carry a time or a reason. */
  predicate Valid(s: Store) {
    && s.size == |s.keys|
    && (forall i :: i in s.status ==> 0 <= i < s.size)
    && (forall i :: i in s.time ==> 0 <= i < s.size && StatusAt(s, i) != ENABLED)
    && (forall i :: i in s.reason ==> 0 <= i < s.size && StatusAt(s, i) != ENABLED)
  }

  /**
    `Channel.Update` on the edited columns `next` of a stored channel: an empty key list is not written,
    the size is recounted, and statuses beyond it are dropped.
   */
  function Saved(stored: Store, next: Store): Store {
    var keys := if next.keys == [] then stored.keys else next.keys;
    Store(keys, |keys|, map i | i in next.status && i < |keys| :: next.status[i], next.time, next.reason)
  }

  datatype Op =
    | EnableKey(index: Option<int>)
    | DisableKey(index: Option<int>)
    | EnableAll
    | DisableAll
    | DeleteKey(index: Option<int>)
    | DeleteDisabled

  predicate InRange(s: Store, index: Option<int>) {
    index.Some? && 0 <= index.value < s.size
  }

  // ---------------------------------------------------------------- re-indexing

  const NO_KEYS := Store([], 0, map[], map[], map[])

  /** Append key `i` of `s`, with what is known about it, at the next position of `out`. */
  function Carry(s: Store, out: Store, i: nat, disabledOnly: bool): Store
    requires i < |s.keys|
  {
    var j := |out.keys|;
    var carries := !disabledOnly || StatusAt(s, i) != ENABLED;
    Store(out.keys + [s.keys[i]], j + 1,
          if StatusAt(s, i) != ENABLED then out.status[j := StatusAt(s, i)] else out.status,
          if carries && i in s.time then out.time[j := s.time[i]] else out.time,
          if carries && i in s.reason then out.reason[j := s.reason[i]] else out.reason)
  }

  /** The first `n` keys without those in `gone`. */
  function Reindexed(s: Store, n: nat, gone: set<int>, disabledOnly: bool): Store
    requires n <= |s.keys|
  {
    if n == 0 then NO_KEYS
    else
      var out := Reindexed(s, n - 1, gone, disabledOnly);
      if n - 1 in gone then out else Carry(s, out, n - 1, disabledOnly)
  }

  function AutoDisabled(s: Store): set<int> {
    set i | 0 <= i < |s.keys| && StatusAt(s, i) == AUTO_DISABLED
  }

  /** The statuses after disabling by hand every enabled key before `n`. */
  function DisabledBefore(s: Store, n: nat): map<int, int> {
    if n == 0 then s.status
    else
      var r := DisabledBefore(s, n - 1);
      if StatusAt(s, n - 1) == ENABLED then r[n - 1 := MANUALLY_DISABLED] else r
  }

  predicate SomeEnabled(s: Store) {
    exists i :: 0 <= i < s.size && StatusAt(s, i) == ENABLED
  }

  /** The stored channel after one operation; a refused one leaves it alone. */
  function Apply(s: Store, op: Op): Store {
    match op
    case EnableKey(index) =>
      if !InRange(s, index) then s
      else
        var gone := {index.value};
        Saved(s, s.(status := s.status - gone, time := s.time - gone, reason := s.reason - gone))
    case DisableKey(index) =>
      if !InRange(s, index) then s else Saved(s, s.(status := s.status[index.value := MANUALLY_DISABLED]))
    case EnableAll => Saved(s, s.(status := map[], time := map[], reason := map[]))
    case DisableAll => if !SomeEnabled(s) then s else Saved(s, s.(status := DisabledBefore(s, s.size)))
    case DeleteKey(index) =>
      if !InRange(s, index) then s
      else
        var next := Reindexed(s, |s.keys|, {index.value}, false);
        if next.keys == [] then s else Saved(s, next)
    case DeleteDisabled =>
      if AutoDisabled(s) == {} then s else Saved(s, Reindexed(s, |s.keys|, AutoDisabled(s), true))
  }

  /** How many of the first `n` keys have a status. */
  function CountOf(s: Store, n: nat, status: int): nat {
    if n == 0 then 0 else CountOf(s, n - 1, status) + if StatusAt(s, n - 1) == status then 1 else 0
  }

  lemma {:induction false} NoneCounted(s: Store, n: nat)
    requires n <= |s.keys|
    ensures CountOf(s, n, AUTO_DISABLED) == 0 <==> forall i :: 0 <= i < n ==> i !in AutoDisabled(s)
  {
    if n > 0 {
      NoneCounted(s, n - 1);
      assert n - 1 in AutoDisabled(s) <==> StatusAt(s, n - 1) == AUTO_DISABLED;
    }
  }

  lemma {:induction false} SomeCounted(s: Store, n: nat)
    ensures CountOf(s, n, ENABLED) > 0 <==> exists k :: 0 <= k < n && StatusAt(s, k) == ENABLED
  {
    if n > 0 {
      SomeCounted(s, n - 1);
    }
  }

  class Channel {
    var stored: Store

    constructor (keys: seq<string>)
      ensures stored == Store(keys, |keys|, map[], map[], map[])
      ensures Valid(stored)
    {
      stored := Store(keys, |keys|, map[], map[], map[]);
    }

    /** The `disable_key` and `enable_key` branches. */
    method SetKey(index: Option<int>, enable: bool) returns (ok: bool)
      modifies this
      ensures ok <==> InRange(old(stored), index)
      ensures stored == Apply(old(stored), if enable then EnableKey(index) else DisableKey(index))
    {
      if index.None? || index.value < 0 || index.value >= stored.size {
        return false;
      }
      var i, next := index.value, stored;
      if enable {
        next := next.(status := next.status - {i}, time := next.time - {i}, reason := next.reason - {i});
      } else {
        next := next.(status := next.status[i := MANUALLY_DISABLED]);
      }
      stored := Saved(stored, next);
      ok := true;
    }

    /** The `enable_all_keys` branch; the count reported is that of the status entries it drops. */
    method EnableAllKeys() returns (count: nat)
      modifies this
      ensures stored == Apply(old(stored), EnableAll)
      ensures count == |old(stored).status|
    {
      count := |stored.status|;
      stored := Saved(stored, stored.(status := map[], time := map[], reason := map[]));
    }

    /** The `disable_all_keys` branch; the count returned is that of the keys it disabled. */
    method DisableAllKeys() returns (count: nat)
      modifies this
      ensures stored == Apply(old(stored), DisableAll)
      ensures count == CountOf(old(stored), if old(stored).size < 0 then 0 else old(stored).size, ENABLED)
    {
      count := 0;
      var status := stored.status;
      var i := 0;
      while i < stored.size
        invariant 0 <= i && (i <= stored.size || i == 0)
        invariant stored == old(stored)
        invariant status == DisabledBefore(stored, i)
        invariant count == CountOf(stored, i, ENABLED)
      {
        DisabledBeforeIs(stored, i);
        var current := if i in status then status[i] else ENABLED;
        if current == ENABLED {
          status := status[i := MANUALLY_DISABLED];
          count := count + 1;
        }
        i := i + 1;
      }
      SomeCounted(stored, i);
      if count > 0 {
        stored := Saved(stored, stored.(status := status));
      }
    }

    /** The `delete_key` branch. */
    method RemoveKey(index: Option<int>) returns (ok: bool)
      requires Valid(stored)
      modifies this
      ensures stored == Apply(old(stored), DeleteKey(index))
      ensures ok <==> InRange(old(stored), index) && |old(stored).keys| > 1
    {
      if index.None? || index.value < 0 || index.value >= stored.size {
        return false;
      }
      var s := stored;
      var keys: seq<string> := [];
      var status: map<int, int>, time: map<int, int>, reason: map<int, string> := map[], map[], map[];
      var newIndex := 0;
      for i := 0 to |s.keys|
        invariant newIndex == |keys|
        invariant Store(keys, newIndex, status, time, reason) == Reindexed(s, i, {index.value}, false)
        invariant |keys| == i - (if index.value < i then 1 else 0)
      {
        if i != index.value {
          keys := keys + [s.keys[i]];
          if i in s.status && s.status[i] != ENABLED {
            status := status[newIndex := s.status[i]];
          }
          if i in s.time {
            time := time[newIndex := s.time[i]];
          }
          if i in s.reason {
            reason := reason[newIndex := s.reason[i]];
          }
          newIndex := newIndex + 1;
        }
      }
      if |keys| == 0 {
        return false;
      }
      stored := Saved(stored, Store(keys, |keys|, status, time, reason));
      ok := true;
    }

    /** The `delete_disabled_keys` branch, which removes the automatically disabled keys. */
    method RemoveDisabledKeys() returns (deleted: nat)
      modifies this
      ensures stored == Apply(old(stored), DeleteDisabled)
      ensures deleted == CountOf(old(stored), |old(stored).keys|, AUTO_DISABLED)
    {
      deleted := 0;
      var s := stored;
      var keys: seq<string> := [];
      var status: map<int, int>, time: map<int, int>, reason: map<int, string> := map[], map[], map[];
      var newIndex := 0;
      ghost var gone := AutoDisabled(s);
      for i := 0 to |s.keys|
        invariant newIndex == |keys|
        invariant Store(keys, newIndex, status, time, reason) == Reindexed(s, i, gone, true)
        invariant deleted == CountOf(s, i, AUTO_DISABLED)
      {
        var current := StatusAt(s, i);
        if current == AUTO_DISABLED {
          deleted := deleted + 1;
        } else {
          keys := keys + [s.keys[i]];
          if current != ENABLED {
            status := status[newIndex := current];
            if i in s.time {
              time := time[newIndex := s.time[i]];
            }
            if i in s.reason {
              reason := reason[newIndex := s.reason[i]];
            }
          }
          newIndex := newIndex + 1;
        }
      }
      NoneCounted(s, |s.keys|);
      if deleted == 0 {
        return;
      }
      stored := Saved(stored, Store(keys, |keys|, status, time, reason));
    }
  }

  // ---------------------------------------------------------------- the list of records it refines

  function Enabled(r: KeyRecord): KeyRecord {
    KeyRecord(r.key, ENABLED, 0, "")
  }

  function Disabled(r: KeyRecord): KeyRecord {
    r.(status := MANUALLY_DISABLED)
  }

  function Map(records: seq<KeyRecord>, f: KeyRecord -> KeyRecord): (r: seq<KeyRecord>)
    ensures |r| == |records| && forall i :: 0 <= i < |r| ==> r[i] == f(records[i])
  {
    seq(|records|, i requires 0 <= i < |records| => f(records[i]))
  }

  /** The first `n` records without the positions in `gone`. */
  function Without(records: seq<KeyRecord>, n: nat, gone: set<int>): seq<KeyRecord>
    requires n <= |records|
  {
    if n == 0 then []
    else Without(records, n - 1, gone) + if n - 1 in gone then [] else [records[n - 1]]
  }

  function AutoDisabledIn(records: seq<KeyRecord>): set<int> {
    set i | 0 <= i < |records| && records[i].status == AUTO_DISABLED
  }

  predicate AllAutoDisabled(records: seq<KeyRecord>) {
    records != [] && forall i :: 0 <= i < |records| ==> records[i].status == AUTO_DISABLED
  }

  /**
    The same operations on a plain list. Deleting when every key is automatically disabled does not empty
    the list but enables it again, because an empty key column is not written back.
   */
  function ApplyList(records: seq<KeyRecord>, op: Op): seq<KeyRecord> {
    match op
    case EnableKey(index) =>
      if index.Some? && 0 <= index.value < |records|
      then records[index.value := Enabled(records[index.value])] else records
    case DisableKey(index) =>
      if index.Some? && 0 <= index.value < |records|
      then records[index.value := Disabled(records[index.value])] else records
    case EnableAll => Map(records, Enabled)
    case DisableAll => Map(records, (r: KeyRecord) => if r.status == ENABLED then Disabled(r) else r)
    case DeleteKey(index) =>
      if index.Some? && 0 <= index.value < |records| && |records| > 1
      then records[..index.value] + records[index.value + 1..] else records
    case DeleteDisabled =>
      if AllAutoDisabled(records) then Map(records, Enabled)
      else Without(records, |records|, AutoDisabledIn(records))
  }

  /** Indices of a partly rebuilt store stay below its length. */
  predicate Compact(out: Store) {
    && out.size == |out.keys|
    && (forall i :: i in out.status ==> 0 <= i < out.size && out.status[i] != ENABLED)
    && (forall i :: i in out.time ==> 0 <= i < out.size)
    && (forall i :: i in out.reason ==> 0 <= i < out.size)
  }

  lemma CarryRecords(s: Store, out: Store, i: nat, disabledOnly: bool)
    requires i < |s.keys| && Compact(out)
    ensures Compact(Carry(s, out, i, disabledOnly))
    ensures Records(Carry(s, out, i, disabledOnly)) == Records(out) + [RecordAt(s, i)]
  {
    var next := Carry(s, out, i, disabledOnly);
    assert RecordAt(next, |out.keys|) == RecordAt(s, i);
    forall k | 0 <= k < |out.keys| ensures RecordAt(next, k) == RecordAt(out, k) {
      assert next.keys[k] == out.keys[k];
    }
  }

  /** Re-indexing displays the old records without the deleted ones. */
  lemma {:induction false} ReindexedRecords(s: Store, n: nat, gone: set<int>, disabledOnly: bool)
    requires n <= |s.keys|
    ensures Compact(Reindexed(s, n, gone, disabledOnly))
    ensures Records(Reindexed(s, n, gone, disabledOnly)) == Without(Records(s), n, gone)
  {
    if n > 0 {
      ReindexedRecords(s, n - 1, gone, disabledOnly);
      var out, records := Reindexed(s, n - 1, gone, disabledOnly), Records(s);
      WithoutStep(records, n, gone, Without(records, n - 1, gone));
      if n - 1 in gone {
        DropStep(s, n, gone, disabledOnly);
      } else {
        KeptRecord(s, n - 1);
        CarryStep(s, n, gone, disabledOnly, out);
      }
    }
  }

  lemma DropStep(s: Store, n: nat, gone: set<int>, disabledOnly: bool)
    requires 0 < n <= |s.keys| && n - 1 in gone
    ensures Reindexed(s, n, gone, disabledOnly) == Reindexed(s, n - 1, gone, disabledOnly)
  {
  }

  lemma CarryStep(s: Store, n: nat, gone: set<int>, disabledOnly: bool, out: Store)
    requires 0 < n <= |s.keys| && n - 1 !in gone && Compact(out) && out == Reindexed(s, n - 1, gone, disabledOnly)
    ensures Compact(Reindexed(s, n, gone, disabledOnly))
    ensures Records(Reindexed(s, n, gone, disabledOnly)) == Records(out) + [RecordAt(s, n - 1)]
  {
    CarryRecords(s, out, n - 1, disabledOnly);
  }

  lemma KeptRecord(s: Store, i: nat)
    requires i < |s.keys|
    ensures Records(s)[i] == RecordAt(s, i)
  {
  }

  lemma WithoutStep(records: seq<KeyRecord>, n: nat, gone: set<int>, kept: seq<KeyRecord>)
    requires 0 < n <= |records| && kept == Without(records, n - 1, gone)
    ensures Without(records, n, gone) == if n - 1 in gone then kept else kept + [records[n - 1]]
  {
  }

  /** A time or reason is carried only with a disabled key. */
  lemma {:induction false} ReindexedValid(s: Store, n: nat, gone: set<int>, disabledOnly: bool)
    requires Valid(s) && n <= |s.keys|
    ensures Valid(Reindexed(s, n, gone, disabledOnly))
  {
    if n > 0 {
      ReindexedValid(s, n - 1, gone, disabledOnly);
    }
  }

  lemma SavedKeys(stored: Store, next: Store)
    requires Valid(next) && next.keys != []
    ensures Saved(stored, next) == next
  {
  }

  lemma {:induction false} WithoutOne(records: seq<KeyRecord>, n: nat, at: nat)
    requires n <= |records| && at < |records|
    ensures Without(records, n, {at as int}) == if n <= at then records[..n] else records[..at] + records[at + 1..n]
  {
    if n > 0 {
      WithoutOne(records, n - 1, at);
    }
  }

  lemma {:induction false} WithoutNone(records: seq<KeyRecord>, n: nat, gone: set<int>)
    requires n <= |records| && forall i :: 0 <= i < n ==> i !in gone
    ensures Without(records, n, gone) == records[..n]
  {
    if n > 0 {
      WithoutNone(records, n - 1, gone);
    }
  }

  lemma {:induction false} WithoutEmpty(records: seq<KeyRecord>, n: nat, gone: set<int>)
    requires n <= |records|
    ensures Without(records, n, gone) == [] <==> forall i :: 0 <= i < n ==> i in gone
  {
    if n > 0 {
      WithoutEmpty(records, n - 1, gone);
    }
  }

  lemma SameAutoDisabled(s: Store)
    ensures AutoDisabled(s) == AutoDisabledIn(Records(s))
  {
  }

  lemma DeleteKeyRefines(s: Store, index: Option<int>)
    requires Valid(s)
    ensures Valid(Apply(s, DeleteKey(index)))
    ensures Records(Apply(s, DeleteKey(index))) == ApplyList(Records(s), DeleteKey(index))
  {
    if InRange(s, index) {
      var at, n := index.value, |s.keys|;
      var next := Reindexed(s, n, {at}, false);
      ReindexedRecords(s, n, {at}, false);
      ReindexedValid(s, n, {at}, false);
      WithoutOne(Records(s), n, at);
      assert Records(s)[at + 1..n] == Records(s)[at + 1..];
      assert |next.keys| == n - 1;
      if next.keys != [] {
        SavedKeys(s, next);
      }
    }
  }

  lemma DeleteDisabledRefines(s: Store)
    requires Valid(s)
    ensures Valid(Apply(s, DeleteDisabled))
    ensures Records(Apply(s, DeleteDisabled)) == ApplyList(Records(s), DeleteDisabled)
  {
    var gone, n, records := AutoDisabled(s), |s.keys|, Records(s);
    SameAutoDisabled(s);
    if gone == {} {
      WithoutNone(records, n, gone);
      assert records[..n] == records;
    } else {
      var next := Reindexed(s, n, gone, true);
      ReindexedRecords(s, n, gone, true);
      ReindexedValid(s, n, gone, true);
      WithoutEmpty(records, n, gone);
      if next.keys != [] {
        assert Records(next) != [];
        var i :| 0 <= i < n && i !in gone;
        assert records[i].status != AUTO_DISABLED;
        SavedKeys(s, next);
      } else {
        assert Records(next) == [];
        forall i | 0 <= i < n ensures records[i].status == AUTO_DISABLED {
          assert i in gone;
        }
        assert AllAutoDisabled(records);
        AllResurrected(s, next);
      }
    }
  }

  /** Saving an empty key list keeps the old keys but none of what was known about them. */
  lemma AllResurrected(s: Store, next: Store)
    requires Valid(s) && next.keys == [] && Compact(next)
    ensures Valid(Saved(s, next)) && Records(Saved(s, next)) == Map(Records(s), Enabled)
  {
    var saved := Saved(s, next);
    assert forall i :: i !in next.status;
    assert forall i :: i !in next.time;
    assert forall i :: i !in next.reason;
    assert saved.status == map[] && saved.time == map[] && saved.reason == map[];
    forall i | 0 <= i < |s.keys| ensures RecordAt(saved, i) == Enabled(RecordAt(s, i)) {
    }
  }

  lemma {:induction false} DisabledBeforeIs(s: Store, n: nat)
    ensures var r := DisabledBefore(s, n);
            && (forall k :: k in r <==> k in s.status || (0 <= k < n && StatusAt(s, k) == ENABLED))
            && (forall k :: k in r ==>
                  r[k] == if 0 <= k < n && StatusAt(s, k) == ENABLED then MANUALLY_DISABLED else StatusAt(s, k))
  {
    if n > 0 {
      DisabledBeforeIs(s, n - 1);
    }
  }

  lemma SetKeyRefines(s: Store, op: Op)
    requires Valid(s) && (op.EnableKey? || op.DisableKey?)
    ensures Valid(Apply(s, op)) && Records(Apply(s, op)) == ApplyList(Records(s), op)
  {
    if InRange(s, op.index) {
      var at, t := op.index.value, Apply(s, op);
      forall i | 0 <= i < |s.keys| ensures RecordAt(t, i) == ApplyList(Records(s), op)[i] {
      }
    }
  }

  lemma EnableAllRefines(s: Store)
    requires Valid(s)
    ensures Valid(Apply(s, EnableAll)) && Records(Apply(s, EnableAll)) == ApplyList(Records(s), EnableAll)
  {
    var t := Apply(s, EnableAll);
    forall i | 0 <= i < |s.keys| ensures RecordAt(t, i) == ApplyList(Records(s), EnableAll)[i] {
    }
  }

  lemma DisableAllRefines(s: Store)
    requires Valid(s)
    ensures Valid(Apply(s, DisableAll)) && Records(Apply(s, DisableAll)) == ApplyList(Records(s), DisableAll)
  {
    var t := Apply(s, DisableAll);
    DisabledBeforeIs(s, s.size);
    forall i | 0 <= i < |s.keys| ensures RecordAt(t, i) == ApplyList(Records(s), DisableAll)[i] {
    }
  }

  lemma ApplyRefines(s: Store, op: Op)
    requires Valid(s)
    ensures Valid(Apply(s, op)) && Records(Apply(s, op)) == ApplyList(Records(s), op)
  {
    match op
    case EnableKey(_) => SetKeyRefines(s, op);
    case DisableKey(_) => SetKeyRefines(s, op);
    case EnableAll => EnableAllRefines(s);
    case DisableAll => DisableAllRefines(s);
    case DeleteKey(index) => DeleteKeyRefines(s, index);
    case DeleteDisabled => DeleteDisabledRefines(s);
  }

  function Run(s: Store, ops: seq<Op>): Store
    decreases |ops|
  {
    if ops == [] then s else Run(Apply(s, ops[0]), ops[1..])
  }

  function RunList(records: seq<KeyRecord>, ops: seq<Op>): seq<KeyRecord>
    decreases |ops|
  {
    if ops == [] then records else RunList(ApplyList(records, ops[0]), ops[1..])
  }

  /** Every sequence of operations keeps the store valid and acts on it as on the plain list. */
  lemma {:induction false} RunRefines(s: Store, ops: seq<Op>)
    requires Valid(s)
    ensures Valid(Run(s, ops)) && Records(Run(s, ops)) == RunList(Records(s), ops)
    decreases |ops|
  {
    if ops != [] {
      ApplyRefines(s, ops[0]);
      RunRefines(Apply(s, ops[0]), ops[1..]);
    }
  }

  /**
    Deleting the automatically disabled keys leaves exactly the other records, unless there are no others:
    then every deleted key comes back enabled.
   */
  lemma DeleteDisabledFilters(s: Store)
    requires Valid(s)
    ensures Records(Apply(s, DeleteDisabled)) == Without(Records(s), |s.keys|, AutoDisabledIn(Records(s)))
            <==> s.keys == [] || exists i :: 0 <= i < |s.keys| && StatusAt(s, i) != AUTO_DISABLED
  {
    DeleteDisabledRefines(s);
    WithoutEmpty(Records(s), |s.keys|, AutoDisabledIn(Records(s)));
    forall i | 0 <= i < |s.keys| ensures Records(s)[i].status == StatusAt(s, i) {
    }
    if AllAutoDisabled(Records(s)) {
      assert |ApplyList(Records(s), DeleteDisabled)| > 0;
      assert forall i :: 0 <= i < |s.keys| ==> i in AutoDisabledIn(Records(s));
    } else if s.keys != [] {
      var i :| 0 <= i < |s.keys| && Records(s)[i].status != AUTO_DISABLED;
      assert StatusAt(s, i) != AUTO_DISABLED;
    }
  }

  /** The one key of a channel, automatically disabled, survives its deletion as an enabled key. */
  lemma AllDeletedKeysReturn(s: Store, key: string, time: int, reason: string)
    requires s == Store([key], 1, map[0 := AUTO_DISABLED], map[0 := time], map[0 := reason])
    ensures Valid(s) && Records(Apply(s, DeleteDisabled)) == [KeyRecord(key, ENABLED, 0, "")]
  {
    assert RecordAt(s, 0) == KeyRecord(key, AUTO_DISABLED, time, reason);
    DeleteDisabledRefines(s);
    assert AllAutoDisabled(Records(s));
    assert Valid(s);
    assert Records(Apply(s, DeleteDisabled)) == ApplyList(Records(s), DeleteDisabled);
    assert ApplyList(Records(s), DeleteDisabled) == Map(Records(s), Enabled);
    assert Map(Records(s), Enabled)[0] == KeyRecord(key, ENABLED, 0, "");
  }

  // ---------------------------------------------------------------- the status view

  const DEFAULT_PAGE_SIZE := 50

  predicate Matches(s: Store, i: int, filter: Option<int>) {
    filter.None? || StatusAt(s, i) == filter.value
  }

  /** The positions below `n` whose status passes the filter, in order. */
  function Listed(s: Store, n: nat, filter: Option<int>): seq<int> {
    if n == 0 then [] else Listed(s, n - 1, filter) + if Matches(s, n - 1, filter) then [n - 1] else []
  }

  function PageCount(total: nat, size: int): (n: nat)
    requires size >= 1
    ensures n >= 1 && total <= n * size && (n > 1 ==> (n - 1) * size < total)
  {
    var n := (total + size - 1) / size;
    if n == 0 then 1 else n
  }

  /** Rows `(page - 1) * size` up to `page * size` of a list. */
  function Slice<T>(rows: seq<T>, page: int, size: int): seq<T>
    requires page >= 1 && size >= 1
  {
    var start, end := (page - 1) * size, page * size;
    SliceBounds(page, size);
    if start >= |rows| then [] else rows[start..if end <= |rows| then end else |rows|]
  }

  lemma SliceBounds(page: int, size: int)
    requires page >= 1 && size >= 1
    ensures 0 <= (page - 1) * size <= page * size && page * size == (page - 1) * size + size
  {
  }

  function Min(a: int, b: int): int { if a <= b then a else b }

  /** One displayed line; of the key only a preview is shown. */
  datatype KeyStatus = KeyStatus(index: int, status: int, time: int, reason: string, preview: string)

  const PREVIEW := 10

  function StatusRow(s: Store, i: nat): KeyStatus
    requires i < |s.keys|
  {
    var r := RecordAt(s, i);
    KeyStatus(i, r.status, r.time, r.reason, if |r.key| > PREVIEW then r.key[..PREVIEW] + "..." else r.key)
  }

  /** The lines displayed for the listed positions. */
  predicate RowsOf(s: Store, listed: seq<int>, rows: seq<KeyStatus>) {
    && |rows| == |listed|
    && forall k :: 0 <= k < |rows| ==> 0 <= listed[k] < |s.keys| && rows[k] == StatusRow(s, listed[k])
  }

  lemma SliceRows(s: Store, listed: seq<int>, rows: seq<KeyStatus>, page: int, size: int)
    requires page >= 1 && size >= 1 && RowsOf(s, listed, rows)
    ensures RowsOf(s, Slice(listed, page, size), Slice(rows, page, size))
  {
    SliceBounds(page, size);
  }

  datatype View = View(
    rows: seq<KeyStatus>, total: nat, page: int, pageSize: int, pages: int, enabled: nat, manual: nat, auto: nat)

  /** The `get_key_status` branch: one page of the keys that pass the filter, with counts over all keys. */
  method StatusView(s: Store, filter: Option<int>, wantedPage: int, wantedSize: int) returns (v: View)
    ensures v.pageSize == (if wantedSize <= 0 then 50 else wantedSize)
    ensures v.total == |Listed(s, |s.keys|, filter)|
    ensures v.pages == PageCount(v.total, v.pageSize)
    ensures v.page == (if wantedPage < 1 then 1 else if wantedPage > v.pages then v.pages else wantedPage)
    ensures RowsOf(s, Slice(Listed(s, |s.keys|, filter), v.page, v.pageSize), v.rows)
    ensures v.enabled == CountOf(s, |s.keys|, ENABLED)
    ensures v.manual == CountOf(s, |s.keys|, MANUALLY_DISABLED)
    ensures v.auto == CountOf(s, |s.keys|, AUTO_DISABLED)
  {
    var page, size := wantedPage, wantedSize;
    if page <= 0 { page := 1; }
    if size <= 0 { size := DEFAULT_PAGE_SIZE; }
    var listed, enabled, manual, auto := CollectRows(s, filter);
    var pages, rows;
    page, pages, rows := TakePage(listed, page, size);
    SliceRows(s, Listed(s, |s.keys|, filter), listed, page, size);
    v := View(rows, |listed|, page, size, pages, enabled, manual, auto);
  }

  lemma RowsStep(s: Store, i: nat, filter: Option<int>, listed: seq<KeyStatus>)
    requires i < |s.keys| && RowsOf(s, Listed(s, i, filter), listed)
    ensures RowsOf(s, Listed(s, i + 1, filter), if Matches(s, i, filter) then listed + [StatusRow(s, i)] else listed)
  {
    assert Listed(s, i + 1, filter) == Listed(s, i, filter) + if Matches(s, i, filter) then [i] else [];
  }

  /** The lines that pass the filter, and the counts over all keys. */
  method CollectRows(s: Store, filter: Option<int>)
    returns (listed: seq<KeyStatus>, enabled: nat, manual: nat, auto: nat)
    ensures RowsOf(s, Listed(s, |s.keys|, filter), listed)
    ensures enabled == CountOf(s, |s.keys|, ENABLED) && manual == CountOf(s, |s.keys|, MANUALLY_DISABLED)
    ensures auto == CountOf(s, |s.keys|, AUTO_DISABLED)
  {
    listed := [];
    enabled, manual, auto := 0, 0, 0;
    for i := 0 to |s.keys|
      invariant RowsOf(s, Listed(s, i, filter), listed)
      invariant enabled == CountOf(s, i, ENABLED) && manual == CountOf(s, i, MANUALLY_DISABLED)
      invariant auto == CountOf(s, i, AUTO_DISABLED)
    {
      var row := StatusRow(s, i);
      match row.status {
        case 1 => enabled := enabled + 1;
        case 2 => manual := manual + 1;
        case 3 => auto := auto + 1;
        case _ =>
      }
      RowsStep(s, i, filter, listed);
      if filter.None? || row.status == filter.value {
        listed := listed + [row];
      }
    }
  }

  method TakePage<T>(listed: seq<T>, wantedPage: int, size: int) returns (page: int, pages: int, rows: seq<T>)
    requires wantedPage >= 1 && size >= 1
    ensures pages == PageCount(|listed|, size) && page == Min(wantedPage, pages)
    ensures rows == Slice(listed, page, size)
  {
    page := wantedPage;
    pages := (|listed| + size - 1) / size;
    if pages == 0 { pages := 1; }
    if page > pages { page := pages; }
    var start := (page - 1) * size;
    SliceBounds(page, size);
    var end := Min(start + size, |listed|);
    rows := [];
    if start < |listed| {
      rows := listed[start..end];
    }
  }

  /** A position is listed exactly when it is below `n` and passes the filter, and the list ascends. */
  lemma {:induction false} ListedExactly(s: Store, n: nat, filter: Option<int>)
    ensures forall i :: i in Listed(s, n, filter) <==> 0 <= i < n && Matches(s, i, filter)
    ensures forall a, b :: 0 <= a < b < |Listed(s, n, filter)| ==> Listed(s, n, filter)[a] < Listed(s, n, filter)[b]
  {
    if n > 0 {
      ListedExactly(s, n - 1, filter);
      var before, now := Listed(s, n - 1, filter), Listed(s, n, filter);
      forall i ensures i in now <==> 0 <= i < n && Matches(s, i, filter) {
        assert i in now <==> i in before || (i == n - 1 && Matches(s, n - 1, filter));
      }
      forall a, b | 0 <= a < b < |now| ensures now[a] < now[b] {
        assert now[a] == before[a] && before[a] in before;
      }
    }
  }

  function Pages<T>(rows: seq<T>, n: nat, size: int): seq<T>
    requires size >= 1
  {
    if n == 0 then [] else Pages(rows, n - 1, size) + Slice(rows, n, size)
  }

  lemma {:induction false} PagesPrefix<T>(rows: seq<T>, n: nat, size: int)
    requires size >= 1
    ensures 0 <= n * size
    ensures Pages(rows, n, size) == if n * size <= |rows| then rows[..n * size] else rows
  {
    if n > 0 {
      PagesPrefix(rows, n - 1, size);
      SliceBounds(n, size);
      var start, end := (n - 1) * size, n * size;
      if start >= |rows| {
        assert Pages(rows, n, size) == rows[..];
      } else {
        assert rows[..start] + rows[start..] == rows;
      }
    }
  }

  /** Turning every page shows every listed row once, in order. */
  lemma PagesCover(s: Store, filter: Option<int>, size: int)
    requires size >= 1
    ensures var listed := Listed(s, |s.keys|, filter);
            Pages(listed, PageCount(|listed|, size), size) == listed
  {
    var listed := Listed(s, |s.keys|, filter);
    PagesPrefix(listed, PageCount(|listed|, size), size);
  }

  /** A known status is counted as often as the list filtered by it is long. */
  lemma {:induction false} CountsMatchFilter(s: Store, n: nat, status: int)
    ensures CountOf(s, n, status) == |Listed(s, n, Some(status))|
  {
    if n > 0 {
      CountsMatchFilter(s, n - 1, status);
    }
  }

  // ---------------------------------------------------------------- written out

  /** A displayed line: the status, 1 when none is stored, and time and reason only when that is not 1. */
  lemma RowWrittenOut(s: Store, i: nat)
    requires i < |s.keys|
    ensures var row, status := StatusRow(s, i), if i in s.status then s.status[i] else 1;
            && row.index == i && row.status == status
            && row.time == (if status != 1 && i in s.time then s.time[i] else 0)
            && row.reason == (if status != 1 && i in s.reason then s.reason[i] else "")
  {
  }

  /** The preview of a key: all of a short one, and of a long one the first ten characters and three dots. */
  lemma PreviewWrittenOut(s: Store, i: nat)
    requires i < |s.keys|
    ensures var key, preview := s.keys[i], StatusRow(s, i).preview;
            if |key| <= 10 then preview == key
            else |preview| == 13 && preview[..10] == key[..10] && preview[10..] == "..."
  {
  }

  /** What the operations do to the displayed records: 1 is enabled, 2 disabled by hand, 3 disabled automatically. */
  lemma OperationsWrittenOut(s: Store, at: nat, i: nat)
    requires Valid(s) && at < |s.keys| && i < |s.keys|
    ensures var before, off := Records(s)[i], Records(Apply(s, DisableKey(Some(at))));
            |off| == |s.keys| && off[i] == if i == at then before.(status := 2) else before
    ensures var before, on := Records(s)[i], Records(Apply(s, EnableKey(Some(at))));
            |on| == |s.keys| && on[i] == if i == at then KeyRecord(before.key, 1, 0, "") else before
    ensures var before, off := Records(s)[i], Records(Apply(s, DisableAll));
            |off| == |s.keys| && off[i] == if before.status == 1 then before.(status := 2) else before
    ensures var before, on := Records(s)[i], Records(Apply(s, EnableAll));
            |on| == |s.keys| && on[i] == KeyRecord(before.key, 1, 0, "")
  {
    ApplyRefines(s, DisableKey(Some(at)));
    ApplyRefines(s, EnableKey(Some(at)));
    ApplyRefines(s, DisableAll);
    ApplyRefines(s, EnableAll);
  }

  lemma {:induction false} WithoutMembers(records: seq<KeyRecord>, n: nat, gone: set<int>, r: KeyRecord)
    requires n <= |records|
    ensures r in Without(records, n, gone) <==> exists i :: 0 <= i < n && i !in gone && records[i] == r
  {
    if n > 0 {
      WithoutMembers(records, n - 1, gone, r);
    }
  }

  /** As long as another key remains, deleting the disabled ones removes exactly the records of status 3. */
  lemma DeletesAutoDisabled(s: Store, r: KeyRecord)
    requires Valid(s) && exists i :: 0 <= i < |s.keys| && StatusAt(s, i) != 3
    ensures r in Records(Apply(s, DeleteDisabled)) <==> r in Records(s) && r.status != 3
  {
    var records := Records(s);
    DeleteDisabledFilters(s);
    WithoutMembers(records, |records|, AutoDisabledIn(records), r);
  }
}
