/** The admin dashboard's figures: status counts and percentages over the
    device list, the status pie, and the five groups with the most devices. */
module DashboardStats {
  import opened Types

  const ONLINE := "online"
  const PLAYING := "playing"
  const OFFLINE := "offline"
  const UNCONFIGURED := "unconfigured"
  const UNKNOWN_GROUP := "Unknown"
  const TOP_GROUPS := 5

  /** How many devices have exactly the status `st`. */
  function StatusCount(ds: seq<DeviceDoc>, st: string): nat {
    if ds == [] then 0
    else StatusCount(ds[..|ds| - 1], st) + (if ds[|ds| - 1].status == Some(st) then 1 else 0)
  }

  /** Devices that are online or playing: a playing device is online. */
  function OnlineCount(ds: seq<DeviceDoc>): nat {
    if ds == [] then 0
    else OnlineCount(ds[..|ds| - 1]) +
         (if ds[|ds| - 1].status == Some(ONLINE) || ds[|ds| - 1].status == Some(PLAYING) then 1 else 0)
  }

  /** The online count is the online devices plus the playing ones, and the
      online, offline and unconfigured devices together are no more than all
      devices. */
  lemma {:induction false} CountsSplit(ds: seq<DeviceDoc>)
    ensures OnlineCount(ds) == StatusCount(ds, ONLINE) + StatusCount(ds, PLAYING)
    ensures OnlineCount(ds) + StatusCount(ds, OFFLINE) + StatusCount(ds, UNCONFIGURED) <= |ds|
  {
    if ds != [] {
      CountsSplit(ds[..|ds| - 1]);
    }
  }

  /** `Math.round(k / n * 100)` with 0 for an empty list, computed exactly:
      the integer nearest to `100 k / n`, halves rounded up. */
  function Percent(k: nat, n: nat): (r: int)
    ensures n == 0 ==> r == 0
  {
    if n == 0 then 0 else (200 * k + n) / (2 * n)
  }

  /** The percentage is the rounded value: `100 k / n` lies within half a
      unit of it, and a half rounds up. */
  lemma PercentRounds(k: nat, n: nat)
    requires n > 0
    ensures 200 * k - n < 2 * Percent(k, n) * n <= 200 * k + n
  {
    var a, d := 200 * k + n, 2 * n;
    var q := a / d;
    assert d * q <= a < d * q + d;
    assert 2 * Percent(k, n) * n == d * q;
  }

  /** A percentage of a part is between 0 and 100, and a larger part never
      gets a smaller percentage. */
  lemma PercentBounds(k: nat, j: nat, n: nat)
    requires j <= k <= n
    ensures 0 <= Percent(k, n) <= 100
    ensures Percent(j, n) <= Percent(k, n)
  {
    if n > 0 {
      var a, b, d := 200 * j + n, 200 * k + n, 2 * n;
      assert Percent(j, n) == a / d && Percent(k, n) == b / d;
      DivAtMost(b, d, 100);
      DivMono(a, b, d);
      DivMono(0, a, d);
    }
  }

  lemma DivMono(a: int, b: int, d: int)
    requires 0 <= a <= b && d > 0
    ensures a / d <= b / d
  {
    var qa, qb := a / d, b / d;
    assert d * qa <= a;
    assert b < d * (qb + 1);
    assert d * qa < d * (qb + 1);
  }

  lemma DivAtMost(a: int, d: int, q: int)
    requires 0 <= a < (q + 1) * d && d > 0
    ensures a / d <= q
  {
    var qa := a / d;
    assert d * qa <= a;
    assert d * (q + 1 - qa) > 0;
    PositiveFactor(d, q + 1 - qa);
  }

  lemma PositiveFactor(d: int, x: int)
    requires d > 0 && d * x > 0
    ensures x > 0
  {
  }

  datatype Stats = Stats(
    totalDevices: nat, onlineDevices: nat, playingDevices: nat, offlineDevices: nat,
    unconfiguredDevices: nat, onlinePercentage: int, playingPercentage: int,
    totalGroups: nat, totalUsers: nat)

  /** The `stats` memo. */
  function ComputeStats(ds: seq<DeviceDoc>, groups: seq<GroupDoc>, users: seq<UserDoc>): (s: Stats)
    ensures s.totalDevices == |ds| && s.totalGroups == |groups| && s.totalUsers == |users|
    ensures s.onlineDevices == OnlineCount(ds) && s.playingDevices == StatusCount(ds, PLAYING)
    ensures s.offlineDevices == StatusCount(ds, OFFLINE) && s.unconfiguredDevices == StatusCount(ds, UNCONFIGURED)
    ensures s.onlinePercentage == Percent(s.onlineDevices, |ds|) && s.playingPercentage == Percent(s.playingDevices, |ds|)
    ensures s.playingDevices <= s.onlineDevices <= s.totalDevices
    ensures s.onlineDevices + s.offlineDevices + s.unconfiguredDevices <= s.totalDevices
    ensures 0 <= s.playingPercentage <= s.onlinePercentage <= 100
    ensures s.totalDevices == 0 ==> s.onlinePercentage == 0 && s.playingPercentage == 0
  {
    CountsSplit(ds);
    var online := OnlineCount(ds);
    var playing := StatusCount(ds, PLAYING);
    PercentBounds(online, playing, |ds|);
    PercentBounds(playing, playing, |ds|);
    Stats(|ds|, online, playing, StatusCount(ds, OFFLINE), StatusCount(ds, UNCONFIGURED),
          Percent(online, |ds|), Percent(playing, |ds|), |groups|, |users|)
  }

  /** A slice of the status pie. */
  datatype Slice = Slice(name: string, value: int)

  /** The four candidate slices, "Online" counting the online devices that
      are not playing. */
  function Candidates(s: Stats): seq<Slice> {
    [Slice("Playing", s.playingDevices), Slice("Online", s.onlineDevices - s.playingDevices),
     Slice("Offline", s.offlineDevices), Slice("Unconfigured", s.unconfiguredDevices)]
  }

  /** `filter(item => item.value > 0)`. */
  function Positive(cs: seq<Slice>): (r: seq<Slice>)
    ensures |r| <= |cs|
    ensures forall x :: x in r <==> x in cs && x.value > 0
  {
    if cs == [] then []
    else (if cs[0].value > 0 then [cs[0]] else []) + Positive(cs[1..])
  }

  /** The `deviceStatusData` memo. */
  function StatusSlices(s: Stats): (r: seq<Slice>)
    ensures |r| <= 4
    ensures forall x :: x in r <==> x in Candidates(s) && x.value > 0
  {
    Positive(Candidates(s))
  }

  /** The filter keeps the order: filtering two lists one after the other
      is filtering each. */
  lemma {:induction false} PositiveAppend(a: seq<Slice>, b: seq<Slice>)
    ensures Positive(a + b) == Positive(a) + Positive(b)
  {
    if a == [] {
      assert a + b == b;
    } else {
      assert (a + b)[1..] == a[1..] + b;
      PositiveAppend(a[1..], b);
    }
  }

  function SliceSum(r: seq<Slice>): int {
    if r == [] then 0 else r[0].value + SliceSum(r[1..])
  }

  lemma {:induction false} PositiveKeepsSum(cs: seq<Slice>)
    requires forall i :: 0 <= i < |cs| ==> cs[i].value >= 0
    ensures SliceSum(Positive(cs)) == SliceSum(cs)
  {
    if cs != [] {
      PositiveKeepsSum(cs[1..]);
      var rest := Positive(cs[1..]);
      if cs[0].value > 0 {
        assert Positive(cs) == [cs[0]] + rest;
        assert ([cs[0]] + rest)[1..] == rest;
      } else {
        assert Positive(cs) == rest;
      }
    }
  }

  /** The pie of the dashboard's own figures adds up to the online, offline
      and unconfigured devices, never more than all devices. */
  lemma PieAddsUp(ds: seq<DeviceDoc>, groups: seq<GroupDoc>, users: seq<UserDoc>)
    ensures var s := ComputeStats(ds, groups, users);
            SliceSum(StatusSlices(s)) == s.onlineDevices + s.offlineDevices + s.unconfiguredDevices
    ensures SliceSum(StatusSlices(ComputeStats(ds, groups, users))) ==
              OnlineCount(ds) + StatusCount(ds, OFFLINE) + StatusCount(ds, UNCONFIGURED)
    ensures SliceSum(StatusSlices(ComputeStats(ds, groups, users))) <= |ds|
  {
    PieSum(ComputeStats(ds, groups, users));
  }

  /** Leaving out the empty slices loses nothing: the pie shows every
      online, offline and unconfigured device once. */
  lemma PieSum(s: Stats)
    requires s.playingDevices <= s.onlineDevices
    ensures SliceSum(StatusSlices(s)) == s.onlineDevices + s.offlineDevices + s.unconfiguredDevices
  {
    var cs := Candidates(s);
    PositiveKeepsSum(cs);
    SumOfFour(cs[0], cs[1], cs[2], cs[3]);
  }

  lemma SumOfFour(a: Slice, b: Slice, c: Slice, d: Slice)
    ensures SliceSum([a, b, c, d]) == a.value + b.value + c.value + d.value
  {
    assert [d][1..] == [];
    assert SliceSum([d]) == d.value;
    assert [c, d][1..] == [d];
    assert SliceSum([c, d]) == c.value + d.value;
    assert [b, c, d][1..] == [c, d];
    assert SliceSum([b, c, d]) == b.value + c.value + d.value;
    assert [a, b, c, d][1..] == [b, c, d];
  }

  /** The first group with id `id`, as `groups.find`. */
  function FindGroup(groups: seq<GroupDoc>, id: string): (r: Option<GroupDoc>)
    ensures r.Some? ==> r.value in groups && r.value.id == id
    ensures r.None? ==> forall g :: g in groups ==> g.id != id
    ensures r.Some? ==> exists i :: 0 <= i < |groups| && groups[i] == r.value &&
                           forall j :: 0 <= j < i ==> groups[j].id != id
  {
    if groups == [] then None
    else if groups[0].id == id then Some(groups[0])
    else
      var r := FindGroup(groups[1..], id);
      if r.Some? then
        var i :| 0 <= i < |groups[1..]| && groups[1..][i] == r.value &&
                 forall j :: 0 <= j < i ==> groups[1..][j].id != id;
        assert groups[i + 1] == r.value;
        r
      else r
  }

  /** The bar a device counts towards: its group's name, or "Unknown" when
      the group is missing or unnamed; none for a device without `groupId`. */
  function BarOf(d: DeviceDoc, groups: seq<GroupDoc>): (r: Option<string>)
    ensures r.Some? <==> Truthy(d.groupId)
    ensures r.Some? && FindGroup(groups, d.groupId.value).None? ==> r == Some(UNKNOWN_GROUP)
    ensures r.Some? && FindGroup(groups, d.groupId.value).Some? ==>
              r == Some(OrElse(FindGroup(groups, d.groupId.value).value.name, UNKNOWN_GROUP))
  {
    if !Truthy(d.groupId) then None
    else match FindGroup(groups, d.groupId.value)
      case None => Some(UNKNOWN_GROUP)
      case Some(g) => Some(OrElse(g.name, UNKNOWN_GROUP))
  }

  /** How many devices count towards the bar `name`. */
  function BarTally(ds: seq<DeviceDoc>, groups: seq<GroupDoc>, name: string): nat {
    if ds == [] then 0
    else BarTally(ds[..|ds| - 1], groups, name) + (if BarOf(ds[|ds| - 1], groups) == Some(name) then 1 else 0)
  }

  datatype Bar = Bar(name: string, count: nat)

  predicate DistinctNames(bars: seq<Bar>) {
    forall i, j :: 0 <= i < j < |bars| ==> bars[i].name != bars[j].name
  }

  function Names(bars: seq<Bar>): set<string> {
    set i | 0 <= i < |bars| :: bars[i].name
  }

  lemma NamesAppend(bars: seq<Bar>, b: Bar)
    ensures Names(bars + [b]) == Names(bars) + {b.name}
  {
    var r := bars + [b];
    assert r[|bars|].name == b.name;
    forall x | x in Names(bars) ensures x in Names(r) {
      var i :| 0 <= i < |bars| && bars[i].name == x;
      assert r[i].name == x;
    }
  }

  lemma NamesRename(bars: seq<Bar>, k: nat, b: Bar)
    requires k < |bars| && b.name == bars[k].name
    ensures Names(bars[k := b]) == Names(bars)
  {
    var r := bars[k := b];
    forall x | x in Names(bars) ensures x in Names(r) {
      var i :| 0 <= i < |bars| && bars[i].name == x;
      assert r[i].name == x;
    }
    forall x | x in Names(r) ensures x in Names(bars) {
      var i :| 0 <= i < |r| && r[i].name == x;
      assert bars[i].name == x;
    }
  }

  /** `bars` lists every bar of `ds` once, with its tally. */
  ghost predicate IsTally(bars: seq<Bar>, ds: seq<DeviceDoc>, groups: seq<GroupDoc>) {
    DistinctNames(bars) &&
    (forall i :: 0 <= i < |bars| ==> bars[i].count == BarTally(ds, groups, bars[i].name) > 0) &&
    (forall name :: BarTally(ds, groups, name) > 0 ==> name in Names(bars))
  }

  /** The position of the bar `name`, if any. */
  function IndexOf(bars: seq<Bar>, name: string): (r: Option<nat>)
    ensures r.Some? ==> r.value < |bars| && bars[r.value].name == name
    ensures r.None? ==> name !in Names(bars)
  {
    if bars == [] then None
    else if bars[|bars| - 1].name == name then Some(|bars| - 1)
    else IndexOf(bars[..|bars| - 1], name)
  }

  /** The `forEach` of `devicesPerGroup`: the record of counts, one entry
      per bar name in order of first appearance. */
  method TallyBars(ds: seq<DeviceDoc>, groups: seq<GroupDoc>) returns (bars: seq<Bar>)
    ensures IsTally(bars, ds, groups)
  {
    bars := [];
    for i := 0 to |ds|
      invariant IsTally(bars, ds[..i], groups)
    {
      var pre := ds[..i + 1];
      assert pre[..|pre| - 1] == ds[..i];
      bars := CountDevice(bars, pre, groups);
    }
    assert ds[..|ds|] == ds;
  }

  /** One step of the `forEach`: the last device of `ds` counts towards its
      bar, raising it or appending it, or towards none. */
  method CountDevice(bars: seq<Bar>, ds: seq<DeviceDoc>, groups: seq<GroupDoc>) returns (bars': seq<Bar>)
    requires ds != [] && IsTally(bars, ds[..|ds| - 1], groups)
    ensures IsTally(bars', ds, groups)
  {
    var bar := BarOf(ds[|ds| - 1], groups);
    if bar.Some? {
      var k := IndexOf(bars, bar.value);
      if k.Some? {
        TallyBump(bars, ds, groups, k.value);
        bars' := bars[k.value := Bar(bar.value, bars[k.value].count + 1)];
      } else {
        TallyNew(bars, ds, groups);
        bars' := bars + [Bar(bar.value, 1)];
      }
    } else {
      TallySkip(bars, ds, groups);
      bars' := bars;
    }
  }

  /** A device of a bar already listed raises that bar by one. */
  lemma TallyBump(bars: seq<Bar>, ds: seq<DeviceDoc>, groups: seq<GroupDoc>, k: nat)
    requires ds != [] && k < |bars|
    requires IsTally(bars, ds[..|ds| - 1], groups)
    requires BarOf(ds[|ds| - 1], groups) == Some(bars[k].name)
    ensures IsTally(bars[k := Bar(bars[k].name, bars[k].count + 1)], ds, groups)
  {
    TallyLast(ds, groups);
    NamesRename(bars, k, Bar(bars[k].name, bars[k].count + 1));
  }

  /** A device of a new bar appends that bar with one device. */
  lemma TallyNew(bars: seq<Bar>, ds: seq<DeviceDoc>, groups: seq<GroupDoc>)
    requires ds != [] && BarOf(ds[|ds| - 1], groups).Some?
    requires IsTally(bars, ds[..|ds| - 1], groups)
    requires BarOf(ds[|ds| - 1], groups).value !in Names(bars)
    ensures IsTally(bars + [Bar(BarOf(ds[|ds| - 1], groups).value, 1)], ds, groups)
  {
    var name := BarOf(ds[|ds| - 1], groups).value;
    TallyLast(ds, groups);
    TallyNewCounts(bars, ds, groups);
    assert forall j :: 0 <= j < |bars| ==> bars[j].name in Names(bars);
    NamesAppend(bars, Bar(name, 1));
  }

  /** Adding the last device of `ds` to the tally of the others. */
  lemma TallyLast(ds: seq<DeviceDoc>, groups: seq<GroupDoc>)
    requires ds != []
    ensures forall x :: BarTally(ds, groups, x) ==
              BarTally(ds[..|ds| - 1], groups, x) + (if BarOf(ds[|ds| - 1], groups) == Some(x) then 1 else 0)
  {
  }

  /** The counts after a new bar is appended. */
  lemma TallyNewCounts(bars: seq<Bar>, ds: seq<DeviceDoc>, groups: seq<GroupDoc>)
    requires ds != [] && BarOf(ds[|ds| - 1], groups).Some?
    requires IsTally(bars, ds[..|ds| - 1], groups)
    requires BarOf(ds[|ds| - 1], groups).value !in Names(bars)
    ensures var nb := bars + [Bar(BarOf(ds[|ds| - 1], groups).value, 1)];
            forall i :: 0 <= i < |nb| ==> nb[i].count == BarTally(ds, groups, nb[i].name) > 0
  {
    var name := BarOf(ds[|ds| - 1], groups).value;
    var nb := bars + [Bar(name, 1)];
    TallyLast(ds, groups);
    assert BarTally(ds[..|ds| - 1], groups, name) == 0;
    forall i | 0 <= i < |nb| ensures nb[i].count == BarTally(ds, groups, nb[i].name) > 0 {
      if i < |bars| {
        assert nb[i] == bars[i];
        assert bars[i].name in Names(bars);
      }
    }
  }

  /** A device without a group changes no bar. */
  lemma TallySkip(bars: seq<Bar>, ds: seq<DeviceDoc>, groups: seq<GroupDoc>)
    requires ds != [] && BarOf(ds[|ds| - 1], groups).None?
    requires IsTally(bars, ds[..|ds| - 1], groups)
    ensures IsTally(bars, ds, groups)
  {
    TallyLast(ds, groups);
  }

  /** The most devices first, at most five bars: every bar left out has no
      more devices than any bar shown, and bars are left out only when five
      are shown. */
  predicate IsTop(top: seq<Bar>, bars: seq<Bar>) {
    |top| <= TOP_GROUPS &&
    (forall i :: 0 <= i < |top| ==> top[i] in bars) &&
    DistinctNames(top) &&
    (forall i, j :: 0 <= i < j < |top| ==> top[i].count >= top[j].count) &&
    (forall b :: b in bars && b.name !in Names(top) ==>
       |top| == TOP_GROUPS && forall i :: 0 <= i < |top| ==> b.count <= top[i].count)
  }

  /** `.sort((a, b) => b.count - a.count).slice(0, 5)`, as five rounds that
      each take the first remaining bar with the largest count. */
  method TopBars(bars: seq<Bar>) returns (top: seq<Bar>)
    requires DistinctNames(bars)
    ensures IsTop(top, bars)
  {
    top := [];
    var taken := seq(|bars|, _ => false);
    while |top| < TOP_GROUPS
      invariant Selecting(bars, top, taken) && |top| <= TOP_GROUPS
      decreases TOP_GROUPS - |top|
    {
      var best := FirstLargest(bars, taken);
      if best < 0 {
        break;
      }
      SelectStep(bars, top, taken, best);
      top := top + [bars[best]];
      taken := taken[best := true];
    }
    forall b | b in bars && b.name !in Names(top)
      ensures |top| == TOP_GROUPS && forall i :: 0 <= i < |top| ==> b.count <= top[i].count
    {
      var k :| 0 <= k < |bars| && bars[k] == b;
    }
  }

  /** What the selection keeps between rounds: `top` holds the taken bars,
      in descending order, none smaller than a bar not yet taken. */
  predicate Selecting(bars: seq<Bar>, top: seq<Bar>, taken: seq<bool>) {
    |taken| == |bars| &&
    (forall i :: 0 <= i < |top| ==> top[i] in bars) &&
    (forall i :: 0 <= i < |bars| ==> (taken[i] <==> bars[i].name in Names(top))) &&
    DistinctNames(top) &&
    (forall i, j :: 0 <= i < j < |top| ==> top[i].count >= top[j].count) &&
    (forall k, i :: 0 <= k < |bars| && !taken[k] && 0 <= i < |top| ==> bars[k].count <= top[i].count)
  }

  /** Taking a largest bar not yet taken keeps what the selection keeps. */
  lemma SelectStep(bars: seq<Bar>, top: seq<Bar>, taken: seq<bool>, best: nat)
    requires DistinctNames(bars) && Selecting(bars, top, taken)
    requires best < |bars| && !taken[best]
    requires forall j :: 0 <= j < |bars| && !taken[j] ==> bars[j].count <= bars[best].count
    ensures Selecting(bars, top + [bars[best]], taken[best := true])
  {
    NameNotTaken(bars, top, best);
    NamesAppend(top, bars[best]);
    TakenStep(bars, top, taken, best);
    var top' := top + [bars[best]];
    assert forall i :: 0 <= i < |top| ==> top'[i] == top[i];
  }

  /** One round of the selection: the first bar not yet taken whose count
      no other bar not yet taken exceeds, or -1 once all are taken. */
  method FirstLargest(bars: seq<Bar>, taken: seq<bool>) returns (best: int)
    requires |taken| == |bars|
    ensures -1 <= best < |bars|
    ensures best < 0 ==> forall j :: 0 <= j < |bars| ==> taken[j]
    ensures best >= 0 ==> !taken[best]
    ensures best >= 0 ==> forall j :: 0 <= j < |bars| && !taken[j] ==> bars[j].count <= bars[best].count
    ensures best >= 0 ==> forall j :: 0 <= j < best && !taken[j] ==> bars[j].count < bars[best].count
  {
    best := -1;
    for k := 0 to |bars|
      invariant -1 <= best < |bars| && (best >= 0 ==> !taken[best] && best < k)
      invariant best < 0 ==> forall j :: 0 <= j < k ==> taken[j]
      invariant best >= 0 ==> forall j :: 0 <= j < k && !taken[j] ==> bars[j].count <= bars[best].count
      invariant best >= 0 ==> forall j :: 0 <= j < best && !taken[j] ==> bars[j].count < bars[best].count
    {
      if !taken[k] && (best < 0 || bars[k].count > bars[best].count) {
        best := k;
      }
    }
  }

  /** Taking bar `best` keeps `taken` the set of the names shown. */
  lemma TakenStep(bars: seq<Bar>, top: seq<Bar>, taken: seq<bool>, best: nat)
    requires DistinctNames(bars) && |taken| == |bars| && best < |bars|
    requires forall i :: 0 <= i < |bars| ==> (taken[i] <==> bars[i].name in Names(top))
    requires Names(top + [bars[best]]) == Names(top) + {bars[best].name}
    ensures forall i :: 0 <= i < |bars| ==> (taken[best := true][i] <==> bars[i].name in Names(top + [bars[best]]))
  {
    forall i | 0 <= i < |bars| ensures taken[best := true][i] <==> bars[i].name in Names(top + [bars[best]]) {
      if i != best {
        assert bars[i].name != bars[best].name;
      }
    }
  }

  lemma NameNotTaken(bars: seq<Bar>, top: seq<Bar>, best: nat)
    requires best < |bars| && bars[best].name !in Names(top)
    requires forall i :: 0 <= i < |top| ==> top[i] in bars
    ensures forall i :: 0 <= i < |top| ==> top[i].name != bars[best].name
  {
    forall i | 0 <= i < |top| ensures top[i].name != bars[best].name {
      assert top[i].name in Names(top);
    }
  }

  /** The `devicesPerGroup` memo: tally, then the five largest bars. */
  method DevicesPerGroup(ds: seq<DeviceDoc>, groups: seq<GroupDoc>) returns (top: seq<Bar>)
    ensures |top| <= TOP_GROUPS
    ensures forall i :: 0 <= i < |top| ==> top[i].count == BarTally(ds, groups, top[i].name) > 0
    ensures forall i, j :: 0 <= i < j < |top| ==> top[i].count >= top[j].count && top[i].name != top[j].name
    ensures forall name :: BarTally(ds, groups, name) > 0 && name !in Names(top) ==>
              |top| == TOP_GROUPS && forall i :: 0 <= i < |top| ==> BarTally(ds, groups, name) <= top[i].count
  {
    var bars := TallyBars(ds, groups);
    top := TopBars(bars);
    forall name | BarTally(ds, groups, name) > 0 && name !in Names(top)
      ensures |top| == TOP_GROUPS && forall i :: 0 <= i < |top| ==> BarTally(ds, groups, name) <= top[i].count
    {
      var k :| 0 <= k < |bars| && bars[k].name == name;
      assert bars[k] in bars;
    }
  }

  /** A device counts towards one bar at most, so the bars never show more
      devices than there are. */
  lemma {:induction false} BarsWithinDevices(ds: seq<DeviceDoc>, groups: seq<GroupDoc>, bars: seq<Bar>)
    requires DistinctNames(bars)
    ensures BarSum(ds, groups, bars) <= |ds|
  {
    if ds != [] {
      var r := ds[..|ds| - 1];
      BarsWithinDevices(r, groups, bars);
      BarSumStep(r, ds[|ds| - 1], groups, bars);
      assert r + [ds[|ds| - 1]] == ds;
    } else {
      EmptyBarSum(groups, bars);
    }
  }

  /** The tallies of the bars of `bars`. */
  function BarSum(ds: seq<DeviceDoc>, groups: seq<GroupDoc>, bars: seq<Bar>): nat {
    if bars == [] then 0 else BarSum(ds, groups, bars[..|bars| - 1]) + BarTally(ds, groups, bars[|bars| - 1].name)
  }

  lemma {:induction false} EmptyBarSum(groups: seq<GroupDoc>, bars: seq<Bar>)
    ensures BarSum([], groups, bars) == 0
  {
    if bars != [] {
      EmptyBarSum(groups, bars[..|bars| - 1]);
    }
  }

  lemma {:induction false} BarSumStep(ds: seq<DeviceDoc>, d: DeviceDoc, groups: seq<GroupDoc>, bars: seq<Bar>)
    requires DistinctNames(bars)
    ensures BarSum(ds + [d], groups, bars) <= BarSum(ds, groups, bars) + 1
    ensures BarOf(d, groups).None? || BarOf(d, groups).value !in Names(bars) ==>
              BarSum(ds + [d], groups, bars) == BarSum(ds, groups, bars)
  {
    assert (ds + [d])[..|ds|] == ds;
    if bars != [] {
      var r := bars[..|bars| - 1];
      assert Names(r) <= Names(bars) by {
        forall x | x in Names(r) ensures x in Names(bars) {
          var i :| 0 <= i < |r| && r[i].name == x;
          assert bars[i].name == x;
        }
      }
      assert bars[|bars| - 1].name in Names(bars);
      BarSumStep(ds, d, groups, r);
      if BarOf(d, groups) == Some(bars[|bars| - 1].name) {
        assert bars[|bars| - 1].name !in Names(r) by {
          forall x | x in Names(r) ensures x != bars[|bars| - 1].name {
            var i :| 0 <= i < |r| && r[i].name == x;
            assert bars[i].name == x;
          }
        }
      }
    }
  }
}
