/** The duplicate-device cleanup script: the device snapshot is bucketed
    by logical identity and by IP address; in every bucket with more than
    one member the most recently seen record is kept and the others are
    marked; the marks of both partitions are collected in one set of
    document ids, which is then deleted.

    Records are referred to by their position in the snapshot. A bucket
    lists its members in snapshot order, and the script's stable sort by
    descending `lastSeen` puts first the earliest member with the greatest
    `lastSeen`; `Beats(s, j, i)` says that `s[j]` sorts before `s[i]`. */
module CleanupDevices {
  import opened Types
  import FirebaseApi

  /** The placeholder the script shows for a missing IP address, and the
      other value it refuses as an IP key. */
  const NO_IP := "N/A"
  const UNKNOWN_IP := "unknown"

  /** The identity key: `deviceId`, or the document id when that is falsy. */
  function IdKey(d: DeviceDoc): string {
    OrElse(d.deviceId, d.id)
  }

  /** Whether the record enters an IP bucket: a non-empty address that is
      neither `N/A` nor `unknown`. */
  predicate HasIpKey(d: DeviceDoc) {
    Truthy(d.ipAddress) && d.ipAddress.value != NO_IP && d.ipAddress.value != UNKNOWN_IP
  }

  /** `lastSeen` in milliseconds; a missing one counts as the epoch. */
  function SeenAt(d: DeviceDoc): int {
    match d.lastSeen
    case Some(t) => t
    case None => 0
  }

  datatype Partition = ById | ByIp

  /** The bucket a record falls into in a partition, if any. */
  function KeyIn(p: Partition, d: DeviceDoc): (k: Option<string>)
    ensures p.ById? ==> k == Some(IdKey(d))
    ensures p.ByIp? ==> (k.Some? <==> HasIpKey(d)) && (k.Some? ==> k == d.ipAddress)
  {
    match p
    case ById => Some(IdKey(d))
    case ByIp => if HasIpKey(d) then Some(d.ipAddress.value) else None
  }

  /** `s[j]` is ordered before `s[i]` by the stable descending sort: seen
      later, or seen at the same time and earlier in the snapshot. */
  predicate Beats(s: seq<DeviceDoc>, j: nat, i: nat)
    requires j < |s| && i < |s|
  {
    SeenAt(s[j]) > SeenAt(s[i]) || (SeenAt(s[j]) == SeenAt(s[i]) && j < i)
  }

  /** Record `i` is in a bucket of partition `p` and is not its first
      member after sorting, so the script marks it. */
  ghost predicate Loses(s: seq<DeviceDoc>, p: Partition, i: nat)
    requires i < |s|
  {
    KeyIn(p, s[i]).Some? &&
    exists j :: 0 <= j < |s| && KeyIn(p, s[j]) == KeyIn(p, s[i]) && Beats(s, j, i)
  }

  /** Record `i` is marked by either partition. */
  ghost predicate Marked(s: seq<DeviceDoc>, i: nat)
    requires i < |s|
  {
    Loses(s, ById, i) || Loses(s, ByIp, i)
  }

  /** The document ids one partition marks. */
  ghost function LoserIds(s: seq<DeviceDoc>, p: Partition): set<string> {
    set i | 0 <= i < |s| && Loses(s, p, i) :: s[i].id
  }

  /** The ids the script deletes: those marked by either partition. */
  ghost function DeleteSet(s: seq<DeviceDoc>): set<string> {
    set i | 0 <= i < |s| && Marked(s, i) :: s[i].id
  }

  /** The keys of the buckets of partition `p` filled from `s[..n]`. */
  function Keys(s: seq<DeviceDoc>, p: Partition, n: nat): set<string>
    requires n <= |s|
  {
    set j | 0 <= j < n && KeyIn(p, s[j]).Some? :: KeyIn(p, s[j]).value
  }

  predicate Increasing(b: seq<nat>) {
    forall u, v :: 0 <= u < v < |b| ==> b[u] < b[v]
  }

  /** The bucket of key `k` in partition `p` after the first `n` records:
      the positions of its members, in snapshot order. */
  function Bucket(s: seq<DeviceDoc>, p: Partition, k: string, n: nat): seq<nat>
    requires n <= |s|
  {
    if n == 0 then []
    else Bucket(s, p, k, n - 1) + (if KeyIn(p, s[n - 1]) == Some(k) then [n - 1] else [])
  }

  /** A bucket holds exactly the records of its key, each once, in
      snapshot order: every record of partition `p` lands in exactly one
      bucket, the one of its key. */
  lemma {:induction false} BucketMembers(s: seq<DeviceDoc>, p: Partition, k: string, n: nat)
    requires n <= |s|
    ensures forall x :: x in Bucket(s, p, k, n) <==> 0 <= x < n && KeyIn(p, s[x]) == Some(k)
    ensures Increasing(Bucket(s, p, k, n))
  {
    if n > 0 {
      var b := Bucket(s, p, k, n - 1);
      BucketMembers(s, p, k, n - 1);
      assert forall u :: 0 <= u < |b| ==> b[u] in b;
    }
  }

  lemma BucketShape(s: seq<DeviceDoc>, p: Partition, k: string, n: nat)
    requires n <= |s|
    ensures Increasing(Bucket(s, p, k, n))
    ensures forall u :: 0 <= u < |Bucket(s, p, k, n)| ==> Bucket(s, p, k, n)[u] < n
  {
    BucketMembers(s, p, k, n);
    var b := Bucket(s, p, k, n);
    assert forall u :: 0 <= u < |b| ==> b[u] in b;
  }

  /** A bucket with more than one member: a duplicate group. */
  ghost predicate IsDup(s: seq<DeviceDoc>, p: Partition, k: string) {
    |Bucket(s, p, k, |s|)| > 1
  }

  ghost function DupsIn(s: seq<DeviceDoc>, p: Partition, ks: set<string>): set<string> {
    set k | k in ks && IsDup(s, p, k)
  }

  /** The keys of partition `p` whose bucket is a duplicate group. */
  ghost function DupKeys(s: seq<DeviceDoc>, p: Partition): set<string> {
    DupsIn(s, p, Keys(s, p, |s|))
  }

  /** What the script reports when it finishes. */
  datatype Report = Report(scanned: nat, duplicateGroups: nat, removed: nat, remaining: int)

  /** The two bucket maps, filled record by record as the script's `forEach`
      does: every record is pushed onto its identity bucket, and onto its IP
      bucket when it has a usable address. */
  method BuildBuckets(s: seq<DeviceDoc>) returns (byId: map<string, seq<nat>>, byIp: map<string, seq<nat>>)
    ensures byId.Keys == Keys(s, ById, |s|) && byIp.Keys == Keys(s, ByIp, |s|)
    ensures forall k :: k in byId ==> byId[k] == Bucket(s, ById, k, |s|)
    ensures forall k :: k in byIp ==> byIp[k] == Bucket(s, ByIp, k, |s|)
  {
    byId, byIp := map[], map[];
    for i := 0 to |s|
      invariant byId.Keys == Keys(s, ById, i) && byIp.Keys == Keys(s, ByIp, i)
      invariant forall k :: k in byId ==> byId[k] == Bucket(s, ById, k, i)
      invariant forall k :: k in byIp ==> byIp[k] == Bucket(s, ByIp, k, i)
    {
      PushStep(s, ById, byId, i);
      PushStep(s, ByIp, byIp, i);
      byId := Push(byId, IdKey(s[i]), i);
      if HasIpKey(s[i]) {
        byIp := Push(byIp, s[i].ipAddress.value, i);
      }
    }
  }

  /** `map.get(k)!.push(i)`, creating the bucket first when it is missing. */
  function Push(m: map<string, seq<nat>>, k: string, i: nat): (m': map<string, seq<nat>>)
    ensures m'.Keys == m.Keys + {k}
    ensures m'[k] == (if k in m then m[k] else []) + [i]
    ensures forall x :: x in m && x != k ==> m'[x] == m[x]
  {
    m[k := (if k in m then m[k] else []) + [i]]
  }

  /** Pushing record `i` onto its bucket (if it has one) turns the buckets
      of the first `i` records into those of the first `i + 1`. */
  lemma PushStep(s: seq<DeviceDoc>, p: Partition, m: map<string, seq<nat>>, i: nat)
    requires i < |s|
    requires m.Keys == Keys(s, p, i)
    requires forall k :: k in m ==> m[k] == Bucket(s, p, k, i)
    ensures var m' := if KeyIn(p, s[i]).Some? then Push(m, KeyIn(p, s[i]).value, i) else m;
            m'.Keys == Keys(s, p, i + 1) && forall k :: k in m' ==> m'[k] == Bucket(s, p, k, i + 1)
  {
    KeysStep(s, p, i);
    if KeyIn(p, s[i]).Some? && KeyIn(p, s[i]).value !in m {
      EmptyBucket(s, p, KeyIn(p, s[i]).value, i);
    }
  }

  lemma KeysStep(s: seq<DeviceDoc>, p: Partition, i: nat)
    requires i < |s|
    ensures KeyIn(p, s[i]).Some? ==> Keys(s, p, i + 1) == Keys(s, p, i) + {KeyIn(p, s[i]).value}
    ensures KeyIn(p, s[i]).None? ==> Keys(s, p, i + 1) == Keys(s, p, i)
  {
  }

  /** A key no record of `s[..i]` has has an empty bucket. */
  lemma {:induction false} EmptyBucket(s: seq<DeviceDoc>, p: Partition, k: string, i: nat)
    requires i <= |s| && k !in Keys(s, p, i)
    ensures Bucket(s, p, k, i) == []
  {
    if i > 0 {
      KeysStep(s, p, i - 1);
      EmptyBucket(s, p, k, i - 1);
    }
  }

  /** The position the stable sort puts first: a scan that replaces the
      current choice only by a strictly later `lastSeen`, so the earliest
      of the latest members wins. */
  method LatestIn(s: seq<DeviceDoc>, b: seq<nat>) returns (w: nat)
    requires |b| > 0 && Increasing(b)
    requires forall u :: 0 <= u < |b| ==> b[u] < |s|
    ensures w in b
    ensures forall u :: 0 <= u < |b| && b[u] != w ==> Beats(s, w, b[u])
  {
    w := b[0];
    var t := 1;
    ghost var at := 0;
    while t < |b|
      invariant 1 <= t <= |b| && 0 <= at < t && b[at] == w
      invariant forall u :: 0 <= u < t && b[u] != w ==> Beats(s, w, b[u])
    {
      if SeenAt(s[b[t]]) > SeenAt(s[w]) {
        w, at := b[t], t;
      }
      t := t + 1;
    }
  }

  /** In a bucket, exactly the members other than the sort's first lose. */
  lemma LosesInBucket(s: seq<DeviceDoc>, p: Partition, k: string, b: seq<nat>, w: nat, i: nat)
    requires b == Bucket(s, p, k, |s|)
    requires forall u :: 0 <= u < |b| ==> b[u] < |s|
    requires i < |s| && KeyIn(p, s[i]) == Some(k)
    requires w in b
    requires forall u :: 0 <= u < |b| && b[u] != w ==> Beats(s, w, b[u])
    ensures Loses(s, p, i) <==> i != w
  {
    BucketMembers(s, p, k, |s|);
    if i != w {
      assert i in b;
      assert Beats(s, w, i);
    }
  }

  /** In a bucket of at most one member nobody loses. */
  lemma NoLoserInSmallBucket(s: seq<DeviceDoc>, p: Partition, k: string, i: nat)
    requires i < |s| && KeyIn(p, s[i]) == Some(k)
    requires |Bucket(s, p, k, |s|)| <= 1
    ensures !Loses(s, p, i)
  {
    BucketMembers(s, p, k, |s|);
  }

  /** The ids of the losers whose key is one of `ks`. */
  ghost function LoserIdsIn(s: seq<DeviceDoc>, p: Partition, ks: set<string>): set<string> {
    set i | 0 <= i < |s| && KeyIn(p, s[i]).Some? && KeyIn(p, s[i]).value in ks && Loses(s, p, i) :: s[i].id
  }

  /** The ids of the losers of one bucket. */
  ghost function BucketLoserIds(s: seq<DeviceDoc>, p: Partition, k: string): set<string> {
    set i | 0 <= i < |s| && KeyIn(p, s[i]) == Some(k) && Loses(s, p, i) :: s[i].id
  }

  /** One partition's pass: for each bucket with more than one member, count
      it and add every member but the latest to `toDelete`. */
  method MarkPartition(s: seq<DeviceDoc>, p: Partition, buckets: map<string, seq<nat>>,
                       toDelete0: set<string>, found0: nat)
    returns (toDelete: set<string>, found: nat)
    requires forall k :: k in buckets ==> buckets[k] == Bucket(s, p, k, |s|)
    ensures toDelete == toDelete0 + LoserIdsIn(s, p, buckets.Keys)
    ensures found == found0 + |DupsIn(s, p, buckets.Keys)|
  {
    toDelete, found := toDelete0, found0;
    var todo := buckets.Keys;
    ghost var done: set<string> := {};
    while todo != {}
      invariant todo <= buckets.Keys && done == buckets.Keys - todo
      invariant toDelete == toDelete0 + LoserIdsIn(s, p, done)
      invariant found == found0 + |DupsIn(s, p, done)|
      decreases |todo|
    {
      var k :| k in todo;
      var marked, dup := MarkBucket(s, p, k, buckets[k]);
      PassStep(s, p, done, k, toDelete0, toDelete, marked, found0, found, dup);
      toDelete := toDelete + marked;
      if dup {
        found := found + 1;
      }
      todo, done := todo - {k}, done + {k};
    }
    assert done == buckets.Keys;
  }

  /** One bucket of a pass: whether it is a duplicate group, and the ids of
      all its members but the latest. */
  method MarkBucket(s: seq<DeviceDoc>, p: Partition, k: string, b: seq<nat>)
    returns (marked: set<string>, dup: bool)
    requires b == Bucket(s, p, k, |s|)
    ensures dup == IsDup(s, p, k)
    ensures marked == BucketLoserIds(s, p, k)
  {
    BucketShape(s, p, k, |s|);
    dup := |b| > 1;
    if dup {
      var w := LatestIn(s, b);
      marked := MarkLosers(s, b, w);
      LoserIdsOfBucket(s, p, k, b, w);
    } else {
      marked := {};
      SmallBucketNoLosers(s, p, k);
    }
  }

  lemma SmallBucketNoLosers(s: seq<DeviceDoc>, p: Partition, k: string)
    requires |Bucket(s, p, k, |s|)| <= 1
    ensures BucketLoserIds(s, p, k) == {}
  {
    forall i | 0 <= i < |s| && KeyIn(p, s[i]) == Some(k) ensures !Loses(s, p, i) {
      NoLoserInSmallBucket(s, p, k, i);
    }
  }

  /** The two passes over all buckets mark exactly the delete set and count
      exactly the duplicate groups. */
  lemma BothPasses(s: seq<DeviceDoc>, idKeys: set<string>, ipKeys: set<string>)
    requires idKeys == Keys(s, ById, |s|) && ipKeys == Keys(s, ByIp, |s|)
    ensures LoserIdsIn(s, ById, idKeys) + LoserIdsIn(s, ByIp, ipKeys) == DeleteSet(s)
    ensures DupsIn(s, ById, idKeys) == DupKeys(s, ById) && DupsIn(s, ByIp, ipKeys) == DupKeys(s, ByIp)
  {
    LoserIdsInAll(s, ById);
    LoserIdsInAll(s, ByIp);
  }

  lemma LoserIdsInAll(s: seq<DeviceDoc>, p: Partition)
    ensures LoserIdsIn(s, p, Keys(s, p, |s|)) == LoserIds(s, p)
  {
  }

  /** The inner loop of a pass: every member of the bucket but the kept one. */
  method MarkLosers(s: seq<DeviceDoc>, b: seq<nat>, w: nat) returns (marked: set<string>)
    requires forall u :: 0 <= u < |b| ==> b[u] < |s|
    ensures marked == set u | 0 <= u < |b| && b[u] != w :: s[b[u]].id
  {
    marked := {};
    for t := 0 to |b|
      invariant marked == set u | 0 <= u < t && b[u] != w :: s[b[u]].id
    {
      if b[t] != w {
        marked := marked + {s[b[t]].id};
      }
    }
  }

  lemma LoserIdsOfBucket(s: seq<DeviceDoc>, p: Partition, k: string, b: seq<nat>, w: nat)
    requires b == Bucket(s, p, k, |s|)
    requires forall u :: 0 <= u < |b| ==> b[u] < |s|
    requires w in b
    requires forall u :: 0 <= u < |b| && b[u] != w ==> Beats(s, w, b[u])
    ensures (set u | 0 <= u < |b| && b[u] != w :: s[b[u]].id) == BucketLoserIds(s, p, k)
  {
    BucketMembers(s, p, k, |s|);
    forall i | 0 <= i < |s| && KeyIn(p, s[i]) == Some(k) ensures Loses(s, p, i) <==> i != w {
      LosesInBucket(s, p, k, b, w, i);
    }
    forall id | id in BucketLoserIds(s, p, k)
      ensures id in (set u | 0 <= u < |b| && b[u] != w :: s[b[u]].id)
    {
      var i :| 0 <= i < |s| && KeyIn(p, s[i]) == Some(k) && Loses(s, p, i) && s[i].id == id;
      assert i in b;
      var u :| 0 <= u < |b| && b[u] == i;
    }
  }

  /** Adding one bucket's marks and count keeps the loop's invariant. */
  lemma PassStep(s: seq<DeviceDoc>, p: Partition, done: set<string>, k: string,
                 toDelete0: set<string>, toDelete: set<string>, marked: set<string>,
                 found0: nat, found: nat, dup: bool)
    requires k !in done
    requires toDelete == toDelete0 + LoserIdsIn(s, p, done)
    requires found == found0 + |DupsIn(s, p, done)|
    requires marked == BucketLoserIds(s, p, k) && dup == IsDup(s, p, k)
    ensures toDelete + marked == toDelete0 + LoserIdsIn(s, p, done + {k})
    ensures (if dup then found + 1 else found) == found0 + |DupsIn(s, p, done + {k})|
  {
    LoserIdsInAdd(s, p, done, k);
    DupsInAdd(s, p, done, k);
  }

  lemma LoserIdsInAdd(s: seq<DeviceDoc>, p: Partition, done: set<string>, k: string)
    ensures LoserIdsIn(s, p, done + {k}) == LoserIdsIn(s, p, done) + BucketLoserIds(s, p, k)
  {
  }

  lemma DupsInAdd(s: seq<DeviceDoc>, p: Partition, done: set<string>, k: string)
    requires k !in done
    ensures |DupsIn(s, p, done + {k})| == |DupsIn(s, p, done)| + (if IsDup(s, p, k) then 1 else 0)
  {
    if IsDup(s, p, k) {
      assert DupsIn(s, p, done + {k}) == DupsIn(s, p, done) + {k};
    } else {
      assert DupsIn(s, p, done + {k}) == DupsIn(s, p, done);
    }
  }

  /** The planning half of the script: the bucket maps, then the identity
      pass and the IP pass into one delete set and one running count of
      duplicate buckets. Reads only the snapshot. */
  method PlanCleanup(s: seq<DeviceDoc>) returns (toDelete: set<string>, duplicatesFound: nat)
    ensures toDelete == DeleteSet(s)
    ensures duplicatesFound == |DupKeys(s, ById)| + |DupKeys(s, ByIp)|
  {
    var byId, byIp := BuildBuckets(s);
    toDelete, duplicatesFound := MarkPartition(s, ById, byId, {}, 0);
    toDelete, duplicatesFound := MarkPartition(s, ByIp, byIp, toDelete, duplicatesFound);
    BothPasses(s, byId.Keys, byIp.Keys);
  }

  /** The whole script against the store: plan, then delete every marked id
      once, counting the deletions. Nothing outside the delete set is
      touched, and the reported remaining count is the real one. */
  method CleanupDuplicateDevices(store: FirebaseApi.Store, s: seq<DeviceDoc>) returns (report: Report)
    requires IsDeviceSnapshot(s, store.devices)
    modifies store
    ensures store.devices == old(store.devices) - DeleteSet(s)
    ensures report.scanned == |s| && report.removed == |DeleteSet(s)|
    ensures report.duplicateGroups == |DupKeys(s, ById)| + |DupKeys(s, ByIp)|
    ensures report.remaining == |s| - report.removed == |store.devices|
    ensures store.groups == old(store.groups) && store.commands == old(store.commands)
    ensures store.configUsers == old(store.configUsers) && store.legacyUsers == old(store.legacyUsers)
  {
    var toDelete, duplicatesFound := PlanCleanup(s);
    var duplicatesRemoved := DeleteAll(store, toDelete);
    RemainingCount(s, old(store.devices), toDelete);
    report := Report(|s|, duplicatesFound, duplicatesRemoved, |s| - duplicatesRemoved);
  }

  /** The deletion loop: every id of the set once, each deletion counted. */
  method DeleteAll(store: FirebaseApi.Store, toDelete: set<string>) returns (removed: nat)
    modifies store
    ensures store.devices == old(store.devices) - toDelete
    ensures removed == |toDelete|
    ensures store.groups == old(store.groups) && store.commands == old(store.commands)
    ensures store.configUsers == old(store.configUsers) && store.legacyUsers == old(store.legacyUsers)
  {
    removed := 0;
    var pending := toDelete;
    while pending != {}
      invariant pending <= toDelete
      invariant store.devices == old(store.devices) - (toDelete - pending)
      invariant removed == |toDelete - pending|
      invariant store.groups == old(store.groups) && store.commands == old(store.commands)
      invariant store.configUsers == old(store.configUsers) && store.legacyUsers == old(store.legacyUsers)
      decreases |pending|
    {
      var id :| id in pending;
      DeleteStep(old(store.devices), toDelete, pending, id);
      store.DeleteDevice(id);
      removed := removed + 1;
      pending := pending - {id};
    }
    assert toDelete - pending == toDelete;
  }

  lemma DeleteStep(m: map<string, DeviceDoc>, all: set<string>, pending: set<string>, id: string)
    requires id in pending && pending <= all
    ensures (m - (all - pending)) - {id} == m - (all - (pending - {id}))
    ensures |all - (pending - {id})| == |all - pending| + 1
  {
    assert all - (pending - {id}) == (all - pending) + {id};
  }

  /** The document ids of a snapshot. */
  function Ids(s: seq<DeviceDoc>): set<string> {
    set i | 0 <= i < |s| :: s[i].id
  }

  lemma {:induction false} IdsCount(s: seq<DeviceDoc>)
    requires DistinctIds(s)
    ensures |Ids(s)| == |s|
  {
    if s != [] {
      var r := s[..|s| - 1];
      assert Ids(s) == Ids(r) + {s[|s| - 1].id};
      IdsCount(r);
    }
  }

  /** Deleting the marked ids of a snapshot of the whole collection leaves
      as many documents as the snapshot has minus the number of ids. */
  lemma RemainingCount(s: seq<DeviceDoc>, m: map<string, DeviceDoc>, del: set<string>)
    requires IsDeviceSnapshot(s, m)
    requires del == DeleteSet(s)
    ensures |m - del| == |s| - |del|
  {
    assert m.Keys == Ids(s);
    assert del <= m.Keys;
    assert (m - del).Keys == m.Keys - del;
    assert m.Keys == (m.Keys - del) + del;
    IdsCount(s);
  }

  /** A record's document is deleted exactly when one of the two passes
      marks it (document ids of a snapshot are distinct). */
  lemma DeletedIff(s: seq<DeviceDoc>, i: nat)
    requires DistinctIds(s) && i < |s|
    ensures s[i].id in DeleteSet(s) <==> Marked(s, i)
  {
    if s[i].id in DeleteSet(s) {
      var j :| 0 <= j < |s| && Marked(s, j) && s[j].id == s[i].id;
      assert j == i;
    }
  }

  /** The sort order is total on distinct records. */
  lemma BeatsTotal(s: seq<DeviceDoc>, i: nat, j: nat)
    requires i < |s| && j < |s| && i != j
    ensures Beats(s, i, j) != Beats(s, j, i)
  {
  }

  /** Of two records of the same bucket, at least one loses its pass. */
  lemma AtMostOneKept(s: seq<DeviceDoc>, p: Partition, i: nat, j: nat)
    requires i < |s| && j < |s| && i != j
    requires KeyIn(p, s[i]).Some? && KeyIn(p, s[i]) == KeyIn(p, s[j])
    ensures Loses(s, p, i) || Loses(s, p, j)
  {
    BeatsTotal(s, i, j);
    if Beats(s, i, j) {
      assert Loses(s, p, j);
    } else {
      assert Loses(s, p, i);
    }
  }

  /** Among the records of `s[..n]` with key `k` there is one that sorts
      before all the others. */
  lemma {:induction false} LatestExists(s: seq<DeviceDoc>, p: Partition, k: string, n: nat) returns (w: nat)
    requires n <= |s|
    requires exists j :: 0 <= j < n && KeyIn(p, s[j]) == Some(k)
    ensures w < n && KeyIn(p, s[w]) == Some(k)
    ensures forall j :: 0 <= j < n && KeyIn(p, s[j]) == Some(k) && j != w ==> Beats(s, w, j)
  {
    if exists j :: 0 <= j < n - 1 && KeyIn(p, s[j]) == Some(k) {
      w := LatestExists(s, p, k, n - 1);
      if KeyIn(p, s[n - 1]) == Some(k) && SeenAt(s[n - 1]) > SeenAt(s[w]) {
        w := n - 1;
      }
    } else {
      w := n - 1;
    }
  }

  /** Every bucket keeps a record in its own pass: the one the sort puts
      first (and by `AtMostOneKept` only that one). */
  lemma OneKeptPerBucket(s: seq<DeviceDoc>, p: Partition, i: nat) returns (w: nat)
    requires i < |s| && KeyIn(p, s[i]).Some?
    ensures w < |s| && KeyIn(p, s[w]) == KeyIn(p, s[i]) && !Loses(s, p, w)
  {
    w := LatestExists(s, p, KeyIn(p, s[i]).value, |s|);
    forall j | 0 <= j < |s| && KeyIn(p, s[j]) == KeyIn(p, s[w]) ensures !Beats(s, j, w) {
      if j != w {
        BeatsTotal(s, j, w);
      }
    }
  }

  /** A record without `lastSeen` loses to any record of its bucket seen
      after the epoch. */
  lemma MissingLastSeenLoses(s: seq<DeviceDoc>, p: Partition, i: nat, j: nat)
    requires i < |s| && j < |s| && KeyIn(p, s[i]).Some? && KeyIn(p, s[i]) == KeyIn(p, s[j])
    requires s[i].lastSeen.None? && SeenAt(s[j]) > 0
    ensures Loses(s, p, i)
  {
    assert Beats(s, j, i);
  }

  /** The two passes together may empty a bucket: `a` loses its identity
      bucket to `b`, and `b` loses its IP bucket to `c`, so neither record
      of identity `x` survives. */
  lemma BucketCanEmpty()
    ensures var a := DeviceDoc("a", Some("x"), None, Some("10.0.0.1"), None, Some(1), None, None, None, None, None, None, None);
            var b := DeviceDoc("b", Some("x"), None, Some("10.0.0.2"), None, Some(2), None, None, None, None, None, None, None);
            var c := DeviceDoc("c", Some("y"), None, Some("10.0.0.2"), None, Some(3), None, None, None, None, None, None, None);
            DeleteSet([a, b, c]) == {"a", "b"}
  {
    var a := DeviceDoc("a", Some("x"), None, Some("10.0.0.1"), None, Some(1), None, None, None, None, None, None, None);
    var b := DeviceDoc("b", Some("x"), None, Some("10.0.0.2"), None, Some(2), None, None, None, None, None, None, None);
    var c := DeviceDoc("c", Some("y"), None, Some("10.0.0.2"), None, Some(3), None, None, None, None, None, None, None);
    var s := [a, b, c];
    assert Beats(s, 1, 0) && Loses(s, ById, 0);
    assert Beats(s, 2, 1) && Loses(s, ByIp, 1);
    assert !Loses(s, ById, 2);
    assert !Loses(s, ByIp, 2);
    assert DeleteSet(s) == {"a", "b"};
  }

  /** Running the script again on what the first run left deletes nothing:
      whatever order the second read lists the remaining documents in, no
      two of them share an identity or a usable IP address. */
  lemma SecondRunDeletesNothing(s: seq<DeviceDoc>, m: map<string, DeviceDoc>, s2: seq<DeviceDoc>)
    requires IsDeviceSnapshot(s, m)
    requires IsDeviceSnapshot(s2, m - DeleteSet(s))
    ensures DeleteSet(s2) == {}
  {
    forall x | 0 <= x < |s2| ensures !Marked(s2, x) {
      SurvivorKept(s, m, s2, ById, x);
      SurvivorKept(s, m, s2, ByIp, x);
    }
    assert forall id :: id !in DeleteSet(s2);
  }

  /** A record of the second read loses in no bucket: a record that beat it
      would be a second survivor of the same key in the first run. */
  lemma SurvivorKept(s: seq<DeviceDoc>, m: map<string, DeviceDoc>, s2: seq<DeviceDoc>, p: Partition, x: nat)
    requires IsDeviceSnapshot(s, m)
    requires IsDeviceSnapshot(s2, m - DeleteSet(s))
    requires x < |s2|
    ensures !Loses(s2, p, x)
  {
    if Loses(s2, p, x) {
      var y :| 0 <= y < |s2| && KeyIn(p, s2[y]) == KeyIn(p, s2[x]) && Beats(s2, y, x);
      var i := SnapshotPosition(s, m, s2[x]);
      var j := SnapshotPosition(s, m, s2[y]);
      DeletedIff(s, i);
      DeletedIff(s, j);
      AtMostOneKept(s, p, i, j);
      assert false;
    }
  }

  /** A document of the collection that is still present after the deletes
      is the record at some unmarked position of the first snapshot. */
  lemma SnapshotPosition(s: seq<DeviceDoc>, m: map<string, DeviceDoc>, d: DeviceDoc) returns (i: nat)
    requires IsDeviceSnapshot(s, m)
    requires d.id in m - DeleteSet(s) && (m - DeleteSet(s))[d.id] == d
    ensures i < |s| && s[i] == d
  {
    i :| 0 <= i < |s| && s[i].id == d.id;
  }
}
