/** The device list: each device's status badge, its IP address, the
    telemetry lines it reports and when it was last seen, with the
    fallbacks the list shows for what a device does not report. */
module DevicesPage {
  import opened Types
  import CleanupDevices
  import DashboardStats

  const NOT_AVAILABLE := "N/A"

  datatype Badge = Badge(color: string, text: string)

  const ONLINE_BADGE := Badge("bg-green-100 text-green-800", "Online")
  const PLAYING_BADGE := Badge("bg-blue-100 text-blue-800", "Playing")
  const PAUSED_BADGE := Badge("bg-yellow-100 text-yellow-800", "Paused")
  const OFFLINE_BADGE := Badge("bg-red-100 text-red-800", "Offline")

  /** `getStatusBadge`: the four known statuses have their own badge; any
      other status, and a missing one, is shown as offline. */
  function StatusBadge(status: Option<string>): (b: Badge)
    ensures status == Some("online") ==> b == ONLINE_BADGE
    ensures status == Some("playing") ==> b == PLAYING_BADGE
    ensures status == Some("paused") ==> b == PAUSED_BADGE
    ensures status !in {Some("online"), Some("playing"), Some("paused")} ==> b == OFFLINE_BADGE
  {
    match status
    case Some(s) =>
      if s == "online" then ONLINE_BADGE
      else if s == "playing" then PLAYING_BADGE
      else if s == "paused" then PAUSED_BADGE
      else OFFLINE_BADGE
    case None => OFFLINE_BADGE
  }

  /** The badges tell the three live states apart from each other and
      from offline. */
  lemma BadgesDistinct()
    ensures ONLINE_BADGE.text != PLAYING_BADGE.text && ONLINE_BADGE.text != PAUSED_BADGE.text
    ensures PLAYING_BADGE.text != PAUSED_BADGE.text
    ensures OFFLINE_BADGE.text !in {ONLINE_BADGE.text, PLAYING_BADGE.text, PAUSED_BADGE.text}
  {
  }

  /** How many listed devices carry the offline badge. */
  function OfflineBadges(ds: seq<DeviceDoc>): nat {
    if ds == [] then 0
    else OfflineBadges(ds[..|ds| - 1]) + (if StatusBadge(ds[|ds| - 1].status) == OFFLINE_BADGE then 1 else 0)
  }

  /** Every device the dashboard counts as offline or as unconfigured is
      listed with the offline badge, so the list shows at least that many
      offline badges. */
  lemma {:induction false} OfflineBadgesCover(ds: seq<DeviceDoc>)
    ensures OfflineBadges(ds) >= DashboardStats.StatusCount(ds, DashboardStats.OFFLINE) + DashboardStats.StatusCount(ds, DashboardStats.UNCONFIGURED)
  {
    if ds != [] {
      OfflineBadgesCover(ds[..|ds| - 1]);
    }
  }

  /** What the last-seen column shows. */
  datatype LastSeenCell = Never | Formatted(millis: int)

  /** `formatLastSeen` over a stored Firestore Timestamp: only a missing
      one is falsy and shows "Never"; any Timestamp, the epoch included,
      is an object and is formatted. */
  function LastSeenText(lastSeen: Option<int>): (c: LastSeenCell)
    ensures c.Never? <==> lastSeen.None?
    ensures c.Formatted? ==> c.millis == lastSeen.value
  {
    if lastSeen.None? then Never else Formatted(lastSeen.value)
  }

  /** A device listed as never seen is one the duplicate cleanup treats as
      seen at the epoch, so it loses to any device seen later; the converse
      fails only for a Timestamp stored at the epoch itself, which the list
      formats. */
  lemma NeverSeenIsEpoch(d: DeviceDoc)
    ensures LastSeenText(d.lastSeen).Never? ==> CleanupDevices.SeenAt(d) == 0
    ensures CleanupDevices.SeenAt(d) == 0 && !LastSeenText(d.lastSeen).Never? ==> d.lastSeen == Some(0)
  {
  }

  /** A Timestamp at the epoch is formatted, yet the cleanup cannot tell it
      from a missing one. */
  lemma EpochTimestampIsFormatted(d: DeviceDoc)
    requires d.lastSeen == Some(0)
    ensures LastSeenText(d.lastSeen) == Formatted(0) && CleanupDevices.SeenAt(d) == 0
  {
  }

  /** The IP address column: `ipAddress || 'N/A'`. */
  function IpText(ip: Option<string>): (s: string)
    ensures Truthy(ip) ==> s == ip.value
    ensures !Truthy(ip) ==> s == NOT_AVAILABLE
  {
    OrElse(ip, NOT_AVAILABLE)
  }

  /** One line of the system column. */
  datatype Metric = Cpu(cpu: int) | Memory(memory: int) | Disk(disk: int)

  /** The system column: the CPU, memory and disk lines, in that order, each
      only when the device reports it. */
  function SystemLines(d: DeviceDoc): (lines: seq<Metric>)
    ensures (exists i :: 0 <= i < |lines| && lines[i].Cpu?) <==> d.cpuUsage.Some?
    ensures (exists i :: 0 <= i < |lines| && lines[i].Memory?) <==> d.memoryUsage.Some?
    ensures (exists i :: 0 <= i < |lines| && lines[i].Disk?) <==> d.diskUsage.Some?
    ensures |lines| <= 3
    ensures forall i, j :: 0 <= i < j < |lines| ==> Rank(lines[i]) < Rank(lines[j])
    ensures forall i :: 0 <= i < |lines| ==>
              match lines[i]
              case Cpu(v) => d.cpuUsage == Some(v)
              case Memory(v) => d.memoryUsage == Some(v)
              case Disk(v) => d.diskUsage == Some(v)
  {
    var cpu := if d.cpuUsage.Some? then [Cpu(d.cpuUsage.value)] else [];
    var mem := if d.memoryUsage.Some? then [Memory(d.memoryUsage.value)] else [];
    var disk := if d.diskUsage.Some? then [Disk(d.diskUsage.value)] else [];
    var lines := cpu + mem + disk;
    assert cpu != [] ==> lines[0] == Cpu(d.cpuUsage.value);
    assert mem != [] ==> lines[|cpu|] == Memory(d.memoryUsage.value);
    assert disk != [] ==> lines[|cpu| + |mem|] == Disk(d.diskUsage.value);
    lines
  }

  /** The position of a line's kind in the column. */
  function Rank(m: Metric): nat {
    match m
    case Cpu(_) => 0
    case Memory(_) => 1
    case Disk(_) => 2
  }

  /** A device that reports no telemetry has an empty system column, and one
      that reports all three has the three lines. */
  lemma SystemLinesExtremes(d: DeviceDoc)
    ensures d.cpuUsage.None? && d.memoryUsage.None? && d.diskUsage.None? ==> SystemLines(d) == []
    ensures d.cpuUsage.Some? && d.memoryUsage.Some? && d.diskUsage.Some? ==>
              SystemLines(d) == [Cpu(d.cpuUsage.value), Memory(d.memoryUsage.value), Disk(d.diskUsage.value)]
  {
  }
}
