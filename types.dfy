/** Record shapes shared by the whole console: the stored documents of the
    device, group and user collections, the command queue entries, and the
    JavaScript truthiness rules the source applies to optional fields.

    A document is the map of fields the store holds under a document id.
    A field that is absent (or `undefined`) is `None`; the store never keeps
    `undefined`, and `null` is written only by the command builders, which
    use `None` for it as well. */
module Types {

  datatype Option<+T> = None | Some(value: T)

  /** A stored device document, `config/devices/list/{id}`. `deviceId` is
      the agent's logical identity (distinct from the document id), `group`
      is the legacy alias of `groupId`, `lastSeen` is the agent's timestamp
      in milliseconds. Telemetry is kept only for its presence. */
  datatype DeviceDoc = DeviceDoc(
    id: string,
    deviceId: Option<string>,
    name: Option<string>,
    ipAddress: Option<string>,
    status: Option<string>,
    lastSeen: Option<int>,
    groupId: Option<string>,
    group: Option<string>,
    streamUrl: Option<string>,
    volume: Option<int>,
    cpuUsage: Option<int>,
    memoryUsage: Option<int>,
    diskUsage: Option<int>)

  /** A stored group document, `config/groups/list/{id}`. */
  datatype GroupDoc = GroupDoc(
    id: string,
    name: Option<string>,
    streamUrl: Option<string>,
    musicFiles: Option<seq<string>>,
    deviceCount: Option<int>,
    createdAt: Option<int>)

  /** A stored user document, in `config/users/list/{id}` or in the legacy
      `users/{id}`. */
  datatype UserDoc = UserDoc(
    id: string,
    name: Option<string>,
    email: Option<string>,
    deviceId: Option<string>,
    createdAt: Option<int>)

  /** The action-specific part of a queued command. */
  datatype Payload =
    | Playback(streamUrl: Option<string>, volume: Option<int>)
    | NoPayload
    | Wifi(ssid: string, password: string)
    | Network(ipAddress: string, gateway: string, dns1: string, dns2: string, iface: string)

  /** An entry of the global command queue `config/commands/list`. */
  datatype Command = Command(
    deviceId: string,
    action: string,
    payload: Payload,
    processed: bool,
    createdAt: int)

  /** JavaScript truthiness of an optional string: present and not empty. */
  predicate Truthy(o: Option<string>) {
    o.Some? && o.value != ""
  }

  /** `o || fallback` for an optional string. */
  function OrElse(o: Option<string>, fallback: string): (r: string)
    ensures Truthy(o) ==> r == o.value
    ensures !Truthy(o) ==> r == fallback
  {
    if o.Some? && o.value != "" then o.value else fallback
  }

  /** `o || null` for an optional string: the empty string becomes absent. */
  function NonEmpty(o: Option<string>): (r: Option<string>)
    ensures r.Some? <==> Truthy(o)
    ensures r.Some? ==> r == o
  {
    if o.Some? && o.value != "" then o else None
  }

  /** `n || null` for an optional number: zero becomes absent. */
  function NonZero(n: Option<int>): (r: Option<int>)
    ensures r.Some? <==> (n.Some? && n.value != 0)
    ensures r.Some? ==> r == n
  {
    if n.Some? && n.value != 0 then n else None
  }

  /** Document ids of a snapshot are pairwise distinct, as in any collection. */
  predicate DistinctIds(s: seq<DeviceDoc>) {
    forall i, j :: 0 <= i < j < |s| ==> s[i].id != s[j].id
  }

  /** `s` lists exactly the documents of the collection `m`, each once:
      what a read of the whole collection returns, in the store's order. */
  ghost predicate IsDeviceSnapshot(s: seq<DeviceDoc>, m: map<string, DeviceDoc>) {
    DistinctIds(s) &&
    (forall i :: 0 <= i < |s| ==> s[i].id in m && m[s[i].id] == s[i]) &&
    (forall id :: id in m ==> exists i :: 0 <= i < |s| && s[i].id == id)
  }

  ghost predicate IsGroupSnapshot(s: seq<GroupDoc>, m: map<string, GroupDoc>) {
    (forall i, j :: 0 <= i < j < |s| ==> s[i].id != s[j].id) &&
    (forall i :: 0 <= i < |s| ==> s[i].id in m && m[s[i].id] == s[i]) &&
    (forall id :: id in m ==> exists i :: 0 <= i < |s| && s[i].id == id)
  }
}
