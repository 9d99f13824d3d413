/** The group-count synchronisation script: it counts the devices of each
    group in the device snapshot and writes every group's count into its
    `deviceCount` field, zero for a group no device names. */
module SyncGroupCounts {
  import opened Types
  import FirebaseApi

  /** The group a device names: `groupId || group`, when that is truthy. */
  function GroupKey(d: DeviceDoc): (k: Option<string>)
    ensures Truthy(d.groupId) ==> k == d.groupId
    ensures !Truthy(d.groupId) ==> k == NonEmpty(d.group)
    ensures k.Some? ==> k.value != ""
  {
    if Truthy(d.groupId) then d.groupId else NonEmpty(d.group)
  }

  /** How many devices of `s` name group `g`. */
  function Tally(s: seq<DeviceDoc>, g: string): nat {
    if s == [] then 0
    else Tally(s[..|s| - 1], g) + (if GroupKey(s[|s| - 1]) == Some(g) then 1 else 0)
  }

  /** The counts the script builds: a group is a key once it has a device. */
  ghost predicate IsTallyMap(s: seq<DeviceDoc>, counts: map<string, nat>) {
    forall g :: (if g in counts then counts[g] else 0) == Tally(s, g)
  }

  /** The first loop: a map from group id to the number of its devices,
      incremented device by device. */
  method CountDevices(s: seq<DeviceDoc>) returns (counts: map<string, nat>)
    ensures IsTallyMap(s, counts)
    ensures forall g :: g in counts ==> counts[g] > 0
  {
    counts := map[];
    for i := 0 to |s|
      invariant IsTallyMap(s[..i], counts)
      invariant forall g :: g in counts ==> counts[g] > 0
    {
      assert s[..i + 1][..i] == s[..i];
      var key := GroupKey(s[i]);
      if key.Some? {
        var before := if key.value in counts then counts[key.value] else 0;
        counts := counts[key.value := before + 1];
      }
    }
    assert s[..|s|] == s;
  }

  /** The groups after the sync: every group's `deviceCount` is its tally,
      nothing else changes. */
  function Synced(groups: map<string, GroupDoc>, s: seq<DeviceDoc>): (r: map<string, GroupDoc>)
    ensures r.Keys == groups.Keys
    ensures forall id :: id in r ==> r[id].deviceCount == Some(Tally(s, id))
    ensures forall id :: id in r ==> r[id].(deviceCount := groups[id].deviceCount) == groups[id]
  {
    map id | id in groups :: groups[id].(deviceCount := Some(Tally(s, id)))
  }

  /** The ids of the first `n` documents of a group snapshot. */
  function GroupIds(gs: seq<GroupDoc>, n: nat): set<string>
    requires n <= |gs|
  {
    set i | 0 <= i < n :: gs[i].id
  }

  /** The script against the store: count the devices read from the
      collection, then write every group's count. */
  method SyncGroupCounts(store: FirebaseApi.Store, devicesSnap: seq<DeviceDoc>, groupsSnap: seq<GroupDoc>)
    requires IsDeviceSnapshot(devicesSnap, store.devices)
    requires IsGroupSnapshot(groupsSnap, store.groups)
    modifies store
    ensures store.groups == Synced(old(store.groups), devicesSnap)
    ensures store.devices == old(store.devices) && store.commands == old(store.commands)
    ensures store.configUsers == old(store.configUsers) && store.legacyUsers == old(store.legacyUsers)
  {
    var counts := CountDevices(devicesSnap);
    WriteCounts(store, devicesSnap, groupsSnap, counts);
  }

  /** The write loop, in group snapshot order. Every write reaches an
      existing group, so after the loop every group of the collection
      carries its tally. */
  method WriteCounts(store: FirebaseApi.Store, devicesSnap: seq<DeviceDoc>, groupsSnap: seq<GroupDoc>, counts: map<string, nat>)
    requires IsGroupSnapshot(groupsSnap, store.groups)
    requires IsTallyMap(devicesSnap, counts)
    modifies store
    ensures store.groups == Synced(old(store.groups), devicesSnap)
    ensures store.devices == old(store.devices) && store.commands == old(store.commands)
    ensures store.configUsers == old(store.configUsers) && store.legacyUsers == old(store.legacyUsers)
  {
    ghost var m := store.groups;
    assert forall i :: 0 <= i < |groupsSnap| ==> groupsSnap[i].id in m;
    for i := 0 to |groupsSnap|
      invariant store.groups == SyncedOn(m, devicesSnap, GroupIds(groupsSnap, i))
      invariant store.devices == old(store.devices) && store.commands == old(store.commands)
      invariant store.configUsers == old(store.configUsers) && store.legacyUsers == old(store.legacyUsers)
    {
      var id := groupsSnap[i].id;
      var count := if id in counts then counts[id] else 0;
      SyncStep(m, devicesSnap, groupsSnap, i, counts);
      var ok := store.SetDeviceCount(id, count);
    }
    SyncedOnAll(m, devicesSnap, GroupIds(groupsSnap, |groupsSnap|));
  }

  /** The groups after the writes to the ids `done`. */
  function SyncedOn(groups: map<string, GroupDoc>, s: seq<DeviceDoc>, done: set<string>): (r: map<string, GroupDoc>)
    ensures r.Keys == groups.Keys
  {
    map id | id in groups :: if id in done then groups[id].(deviceCount := Some(Tally(s, id))) else groups[id]
  }

  /** The write of group `i`'s count, as the counts map gives it, extends
      the synced groups by that group. */
  lemma SyncStep(groups: map<string, GroupDoc>, s: seq<DeviceDoc>, gs: seq<GroupDoc>, i: nat, counts: map<string, nat>)
    requires i < |gs| && gs[i].id in groups && IsTallyMap(s, counts)
    ensures var id := gs[i].id;
            var before := SyncedOn(groups, s, GroupIds(gs, i));
            id in before &&
            before[id := before[id].(deviceCount := Some(if id in counts then counts[id] else 0))] == SyncedOn(groups, s, GroupIds(gs, i + 1))
  {
    var id := gs[i].id;
    assert (if id in counts then counts[id] else 0) == Tally(s, id);
    assert GroupIds(gs, i + 1) == GroupIds(gs, i) + {id};
    SyncOneMore(groups, s, GroupIds(gs, i), id);
  }

  lemma SyncOneMore(groups: map<string, GroupDoc>, s: seq<DeviceDoc>, done: set<string>, id: string)
    requires id in groups
    ensures var before := SyncedOn(groups, s, done);
            before[id := before[id].(deviceCount := Some(Tally(s, id)))] == SyncedOn(groups, s, done + {id})
  {
  }

  lemma SyncedOnAll(groups: map<string, GroupDoc>, s: seq<DeviceDoc>, done: set<string>)
    requires groups.Keys <= done
    ensures SyncedOn(groups, s, done) == Synced(groups, s)
  {
  }

  /** Syncing twice gives what syncing once gives. */
  lemma SyncIdempotent(groups: map<string, GroupDoc>, s: seq<DeviceDoc>)
    ensures Synced(Synced(groups, s), s) == Synced(groups, s)
  {
    var once := Synced(groups, s);
    assert forall id :: id in once ==> once[id].(deviceCount := Some(Tally(s, id))) == once[id];
  }

  /** The tallies of the groups of a snapshot. */
  function SumTallies(s: seq<DeviceDoc>, gs: seq<GroupDoc>): nat {
    if gs == [] then 0 else SumTallies(s, gs[..|gs| - 1]) + Tally(s, gs[|gs| - 1].id)
  }

  /** How many groups of `gs` have id `g`. */
  function Occurrences(gs: seq<GroupDoc>, g: string): nat {
    if gs == [] then 0
    else Occurrences(gs[..|gs| - 1], g) + (if gs[|gs| - 1].id == g then 1 else 0)
  }

  predicate DistinctGroupIds(gs: seq<GroupDoc>) {
    forall i, j :: 0 <= i < j < |gs| ==> gs[i].id != gs[j].id
  }

  lemma {:induction false} OccursAtMostOnce(gs: seq<GroupDoc>, g: string)
    requires DistinctGroupIds(gs)
    ensures Occurrences(gs, g) <= 1
    ensures Occurrences(gs, g) == 1 <==> exists i :: 0 <= i < |gs| && gs[i].id == g
  {
    if gs != [] {
      var r := gs[..|gs| - 1];
      OccursAtMostOnce(r, g);
      if gs[|gs| - 1].id == g {
        assert forall i :: 0 <= i < |r| ==> r[i].id != g by {
          assert forall i :: 0 <= i < |r| ==> r[i] == gs[i];
        }
      }
      if exists i :: 0 <= i < |gs| && gs[i].id == g {
        var i :| 0 <= i < |gs| && gs[i].id == g;
        if i < |gs| - 1 {
          assert r[i].id == g;
        }
      }
    }
  }

  /** Adding one device to the snapshot raises the sum by the number of
      groups it names. */
  lemma {:induction false} SumStep(s: seq<DeviceDoc>, d: DeviceDoc, gs: seq<GroupDoc>)
    ensures SumTallies(s + [d], gs) ==
            SumTallies(s, gs) + (if GroupKey(d).Some? then Occurrences(gs, GroupKey(d).value) else 0)
  {
    assert (s + [d])[..|s|] == s;
    if gs != [] {
      SumStep(s, d, gs[..|gs| - 1]);
    }
  }

  /** A device counts towards at most one group, so the written counts add
      up to at most the number of devices: the counts never invent devices. */
  lemma {:induction false} CountsBounded(s: seq<DeviceDoc>, gs: seq<GroupDoc>)
    requires DistinctGroupIds(gs)
    ensures SumTallies(s, gs) <= |s|
  {
    if s == [] {
      EmptyTallies(gs);
    } else {
      var r := s[..|s| - 1];
      var d := s[|s| - 1];
      assert s == r + [d];
      CountsBounded(r, gs);
      SumStep(r, d, gs);
      if GroupKey(d).Some? {
        OccursAtMostOnce(gs, GroupKey(d).value);
      }
    }
  }

  lemma {:induction false} EmptyTallies(gs: seq<GroupDoc>)
    ensures SumTallies([], gs) == 0
  {
    if gs != [] {
      EmptyTallies(gs[..|gs| - 1]);
    }
  }

  /** Conversely every device with a group that exists is counted: when each
      device names one of the groups, the counts add up to the number of
      devices exactly. */
  lemma {:induction false} CountsExact(s: seq<DeviceDoc>, gs: seq<GroupDoc>)
    requires DistinctGroupIds(gs)
    requires forall i :: 0 <= i < |s| ==>
               GroupKey(s[i]).Some? && exists j :: 0 <= j < |gs| && gs[j].id == GroupKey(s[i]).value
    ensures SumTallies(s, gs) == |s|
  {
    if s == [] {
      EmptyTallies(gs);
    } else {
      var r := s[..|s| - 1];
      var d := s[|s| - 1];
      assert s == r + [d];
      assert forall i :: 0 <= i < |r| ==> r[i] == s[i];
      CountsExact(r, gs);
      SumStep(r, d, gs);
      OccursAtMostOnce(gs, GroupKey(d).value);
    }
  }
}
