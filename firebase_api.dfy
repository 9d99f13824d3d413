/** The store accessor: the command queue builders, the field rules of user
    creation and update, the dual-location user policies (update with
    fallback, delete from both, merged subscription), and the document
    operations the maintenance scripts issue.

    The document store is a `Store` object with one map per collection,
    keyed by document id, and a sequence for the append-only command queue.
    An update fails exactly when the document is absent; a delete of an
    absent document succeeds and changes nothing. A server timestamp is the
    `now` parameter, and the id that `addDoc` generates is the `newId`
    parameter, which the store guarantees to be unused. */
module FirebaseApi {
  import opened Types

  const PLAY := "play"
  const PAUSE := "pause"
  const STOP := "stop"
  const VOLUME := "volume"
  const SYSTEM_UPDATE := "system_update"
  const CONFIGURE_WIFI := "configure_wifi"
  const NETWORK_CONFIG := "network_config"
  const DEFAULT_INTERFACE := "eth0"

  /** The record `commandsApi.send` queues: `streamUrl || null` and
      `volume || null`, so an empty URL and the volume 0 are both stored as
      null, and the command starts unprocessed. */
  function SendRecord(deviceId: string, action: string, streamUrl: Option<string>,
                      volume: Option<int>, now: int): (c: Command)
    ensures c.deviceId == deviceId && c.action == action && !c.processed && c.createdAt == now
    ensures c.payload.Playback?
    ensures c.payload.streamUrl.Some? <==> Truthy(streamUrl)
    ensures c.payload.streamUrl.Some? ==> c.payload.streamUrl == streamUrl
    ensures c.payload.volume.Some? <==> (volume.Some? && volume.value != 0)
    ensures c.payload.volume.Some? ==> c.payload.volume == volume
  {
    Command(deviceId, action, Playback(NonEmpty(streamUrl), NonZero(volume)), false, now)
  }

  /** The record `commandsApi.sendSystemUpdate` queues: no payload. */
  function SystemUpdateRecord(deviceId: string, now: int): (c: Command)
    ensures c.deviceId == deviceId && c.action == SYSTEM_UPDATE && c.payload == NoPayload
    ensures !c.processed && c.createdAt == now
  {
    Command(deviceId, SYSTEM_UPDATE, NoPayload, false, now)
  }

  /** The record `commandsApi.sendWifiConfig` queues: the credentials verbatim. */
  function WifiConfigRecord(deviceId: string, ssid: string, password: string, now: int): (c: Command)
    ensures c.deviceId == deviceId && c.action == CONFIGURE_WIFI
    ensures c.payload == Wifi(ssid, password) && !c.processed && c.createdAt == now
  {
    Command(deviceId, CONFIGURE_WIFI, Wifi(ssid, password), false, now)
  }

  /** The record `commandsApi.sendNetworkConfig` queues: a missing or empty
      `dns2` becomes the empty string, and an omitted interface name
      defaults to `eth0` (an explicitly given one, even empty, is kept). */
  function NetworkConfigRecord(deviceId: string, ipAddress: string, gateway: string, dns1: string,
                               dns2: Option<string>, iface: Option<string>, now: int): (c: Command)
    ensures c.deviceId == deviceId && c.action == NETWORK_CONFIG && !c.processed && c.createdAt == now
    ensures c.payload.Network?
    ensures c.payload.ipAddress == ipAddress && c.payload.gateway == gateway && c.payload.dns1 == dns1
    ensures c.payload.dns2 == (if dns2.Some? then dns2.value else "")
    ensures c.payload.iface == (if iface.Some? then iface.value else DEFAULT_INTERFACE)
  {
    var d2 := OrElse(dns2, "");
    var ifn := match iface case Some(n) => n case None => DEFAULT_INTERFACE;
    Command(deviceId, NETWORK_CONFIG, Network(ipAddress, gateway, dns1, d2, ifn), false, now)
  }

  /** The document `usersApi.create` writes: name, e-mail and creation time
      always, `deviceId` only when it is a non-empty string. */
  function NewUserDoc(newId: string, name: string, email: string, deviceId: Option<string>,
                      now: int): (u: UserDoc)
    ensures u.id == newId && u.name == Some(name) && u.email == Some(email)
    ensures u.createdAt == Some(now)
    ensures u.deviceId.Some? <==> Truthy(deviceId)
    ensures u.deviceId.Some? ==> u.deviceId == deviceId
  {
    UserDoc(newId, Some(name), Some(email), NonEmpty(deviceId), Some(now))
  }

  /** What an update does to one field: leave it, set it, or delete it. */
  datatype FieldOp<T> = Keep | Set(value: T) | Clear

  /** The cleaned update `usersApi.update` sends. */
  datatype UserPatch = UserPatch(name: FieldOp<string>, email: FieldOp<string>, deviceId: FieldOp<string>)

  /** The field rules of `usersApi.update`: `name` and `email` are sent only
      when given; a `deviceId` that is missing or empty becomes a field
      deletion, any other is set. (`undefined` and `null` are both `None`.) */
  function CleanUserPatch(name: Option<string>, email: Option<string>, deviceId: Option<string>): (p: UserPatch)
    ensures p.name == (if name.Some? then Set(name.value) else Keep)
    ensures p.email == (if email.Some? then Set(email.value) else Keep)
    ensures p.deviceId == (if Truthy(deviceId) then Set(deviceId.value) else Clear)
    ensures !p.deviceId.Keep?
  {
    UserPatch(
      if name.Some? then Set(name.value) else Keep,
      if email.Some? then Set(email.value) else Keep,
      if Truthy(deviceId) then Set(deviceId.value) else Clear)
  }

  function ApplyField<T>(op: FieldOp<T>, before: Option<T>): (r: Option<T>)
    ensures op.Keep? ==> r == before
    ensures op.Set? ==> r == Some(op.value)
    ensures op.Clear? ==> r == None
  {
    match op
    case Keep => before
    case Set(v) => Some(v)
    case Clear => None
  }

  /** A field update merged into a stored user document; the id and the
      creation time are never touched. */
  function ApplyUserPatch(u: UserDoc, p: UserPatch): (r: UserDoc)
    ensures r.id == u.id && r.createdAt == u.createdAt
    ensures r.name == ApplyField(p.name, u.name)
    ensures r.email == ApplyField(p.email, u.email)
    ensures r.deviceId == ApplyField(p.deviceId, u.deviceId)
  {
    u.(name := ApplyField(p.name, u.name), email := ApplyField(p.email, u.email),
       deviceId := ApplyField(p.deviceId, u.deviceId))
  }

  /** Sending the same cleaned update twice leaves the document as once. */
  lemma UserPatchIdempotent(u: UserDoc, name: Option<string>, email: Option<string>, deviceId: Option<string>)
    ensures var p := CleanUserPatch(name, email, deviceId);
            ApplyUserPatch(ApplyUserPatch(u, p), p) == ApplyUserPatch(u, p)
  {
  }

  /** The list `usersApi.subscribe` delivers on each change of the current
      location: the current users followed by the legacy users, no
      de-duplication; when reading the legacy location fails (`None`), the
      current users alone. */
  function MergedUsers(config: seq<UserDoc>, legacy: Option<seq<UserDoc>>): (r: seq<UserDoc>)
    ensures legacy.Some? ==> |r| == |config| + |legacy.value|
    ensures legacy.None? ==> r == config
    ensures r[..|config|] == config
    ensures legacy.Some? ==> r[|config|..] == legacy.value
  {
    match legacy
    case Some(users) => config + users
    case None => config
  }

  /** No de-duplication: a user present in both locations is delivered twice,
      and every entry occurs as often as in the two lists together. */
  lemma MergedUsersKeepsDuplicates(config: seq<UserDoc>, legacy: seq<UserDoc>, u: UserDoc)
    ensures multiset(MergedUsers(config, Some(legacy)))[u] == multiset(config)[u] + multiset(legacy)[u]
    ensures u in config && u in legacy ==> multiset(MergedUsers(config, Some(legacy)))[u] >= 2
  {
    assert MergedUsers(config, Some(legacy)) == config + legacy;
  }

  /** What `devicesApi.subscribe` delivers for the device collection `m`:
      the documents that have a `lastSeen` (ordering by a field leaves out
      the documents without it), each once, the most recently seen first. */
  ghost predicate IsDeviceFeed(s: seq<DeviceDoc>, m: map<string, DeviceDoc>) {
    (forall i :: 0 <= i < |s| ==> s[i].lastSeen.Some? && s[i].id in m && m[s[i].id] == s[i]) &&
    (forall i, j :: 0 <= i < j < |s| ==> s[i].id != s[j].id && s[j].lastSeen.value <= s[i].lastSeen.value) &&
    (forall id :: id in m && m[id].lastSeen.Some? ==> exists i :: 0 <= i < |s| && s[i].id == id)
  }

  /** The head of the device feed is a device seen no earlier than any
      other device that reports a time. */
  lemma DeviceFeedHeadIsLatest(s: seq<DeviceDoc>, m: map<string, DeviceDoc>, id: string)
    requires IsDeviceFeed(s, m)
    requires id in m && m[id].lastSeen.Some?
    ensures s != [] && m[id].lastSeen.value <= s[0].lastSeen.value
  {
    var i :| 0 <= i < |s| && s[i].id == id;
    assert m[id] == s[i];
    if i > 0 {
      assert s[i].lastSeen.value <= s[0].lastSeen.value;
    }
  }

  /** Code-point order of strings, the order names are sorted in. */
  predicate StringLe(a: string, b: string) {
    a == [] || (b != [] && (a[0] < b[0] || (a[0] == b[0] && StringLe(a[1..], b[1..]))))
  }

  /** What `groupsApi.subscribe` delivers for the group collection `m`:
      the groups that have a name, each once, in ascending name order. */
  ghost predicate IsGroupFeed(s: seq<GroupDoc>, m: map<string, GroupDoc>) {
    (forall i :: 0 <= i < |s| ==> s[i].name.Some? && s[i].id in m && m[s[i].id] == s[i]) &&
    (forall i, j :: 0 <= i < j < |s| ==> s[i].id != s[j].id && StringLe(s[i].name.value, s[j].name.value)) &&
    (forall id :: id in m && m[id].name.Some? ==> exists i :: 0 <= i < |s| && s[i].id == id)
  }

  /** The order names are sorted in is total and antisymmetric, so a group
      feed is determined up to groups of equal name. */
  lemma {:induction false} StringLeTotal(a: string, b: string)
    ensures StringLe(a, b) || StringLe(b, a)
    ensures StringLe(a, b) && StringLe(b, a) ==> a == b
  {
    if a != [] && b != [] && a[0] == b[0] {
      StringLeTotal(a[1..], b[1..]);
      assert a == [a[0]] + a[1..] && b == [b[0]] + b[1..];
    }
  }

  /** The head of the group feed has a name that sorts no later than that
      of any named group. */
  lemma GroupFeedHeadIsFirst(s: seq<GroupDoc>, m: map<string, GroupDoc>, id: string)
    requires IsGroupFeed(s, m)
    requires id in m && m[id].name.Some?
    ensures s != [] && StringLe(s[0].name.value, m[id].name.value)
  {
    var i :| 0 <= i < |s| && s[i].id == id;
    assert m[id] == s[i];
    if i == 0 {
      StringLeRefl(s[0].name.value);
    }
  }

  lemma {:induction false} StringLeRefl(a: string)
    ensures StringLe(a, a)
  {
    if a != [] {
      StringLeRefl(a[1..]);
    }
  }

  /** The whole store: the device, group and user collections (the user
      directory in both its locations) and the command queue. */
  class Store {
    var devices: map<string, DeviceDoc>
    var groups: map<string, GroupDoc>
    var configUsers: map<string, UserDoc>
    var legacyUsers: map<string, UserDoc>
    var commands: seq<Command>

    constructor (devices: map<string, DeviceDoc>, groups: map<string, GroupDoc>,
                 configUsers: map<string, UserDoc>, legacyUsers: map<string, UserDoc>)
      ensures this.devices == devices && this.groups == groups
      ensures this.configUsers == configUsers && this.legacyUsers == legacyUsers
      ensures commands == []
    {
      this.devices, this.groups := devices, groups;
      this.configUsers, this.legacyUsers := configUsers, legacyUsers;
      commands := [];
    }

    /** `commandsApi.send`: queues exactly one command and changes nothing else. */
    method Send(deviceId: string, action: string, streamUrl: Option<string>, volume: Option<int>, now: int)
      modifies this
      ensures commands == old(commands) + [SendRecord(deviceId, action, streamUrl, volume, now)]
      ensures devices == old(devices) && groups == old(groups)
      ensures configUsers == old(configUsers) && legacyUsers == old(legacyUsers)
    {
      commands := commands + [SendRecord(deviceId, action, streamUrl, volume, now)];
    }

    /** `commandsApi.sendSystemUpdate`. */
    method SendSystemUpdate(deviceId: string, now: int)
      modifies this
      ensures commands == old(commands) + [SystemUpdateRecord(deviceId, now)]
      ensures devices == old(devices) && groups == old(groups)
      ensures configUsers == old(configUsers) && legacyUsers == old(legacyUsers)
    {
      commands := commands + [SystemUpdateRecord(deviceId, now)];
    }

    /** `commandsApi.sendWifiConfig`. */
    method SendWifiConfig(deviceId: string, ssid: string, password: string, now: int)
      modifies this
      ensures commands == old(commands) + [WifiConfigRecord(deviceId, ssid, password, now)]
      ensures devices == old(devices) && groups == old(groups)
      ensures configUsers == old(configUsers) && legacyUsers == old(legacyUsers)
    {
      commands := commands + [WifiConfigRecord(deviceId, ssid, password, now)];
    }

    /** `commandsApi.sendNetworkConfig`. */
    method SendNetworkConfig(deviceId: string, ipAddress: string, gateway: string, dns1: string,
                             dns2: Option<string>, iface: Option<string>, now: int)
      modifies this
      ensures commands == old(commands) + [NetworkConfigRecord(deviceId, ipAddress, gateway, dns1, dns2, iface, now)]
      ensures devices == old(devices) && groups == old(groups)
      ensures configUsers == old(configUsers) && legacyUsers == old(legacyUsers)
    {
      commands := commands + [NetworkConfigRecord(deviceId, ipAddress, gateway, dns1, dns2, iface, now)];
    }

    /** `usersApi.create`: always into the current location. */
    method CreateUser(newId: string, name: string, email: string, deviceId: Option<string>, now: int)
      requires newId !in configUsers
      modifies this
      ensures configUsers == old(configUsers)[newId := NewUserDoc(newId, name, email, deviceId, now)]
      ensures legacyUsers == old(legacyUsers)
      ensures devices == old(devices) && groups == old(groups) && commands == old(commands)
    {
      configUsers := configUsers[newId := NewUserDoc(newId, name, email, deviceId, now)];
    }

    /** `usersApi.update`: the cleaned update goes to the current location;
        only when that fails (the user is not there) is it retried on the
        legacy location, and when that fails too the error reaches the
        caller (`ok` false) with nothing written. */
    method UpdateUser(userId: string, name: Option<string>, email: Option<string>, deviceId: Option<string>)
      returns (ok: bool)
      modifies this
      ensures ok <==> userId in old(configUsers) || userId in old(legacyUsers)
      ensures userId in old(configUsers) ==>
        configUsers == old(configUsers)[userId := ApplyUserPatch(old(configUsers)[userId], CleanUserPatch(name, email, deviceId))]
        && legacyUsers == old(legacyUsers)
      ensures userId !in old(configUsers) && userId in old(legacyUsers) ==>
        configUsers == old(configUsers)
        && legacyUsers == old(legacyUsers)[userId := ApplyUserPatch(old(legacyUsers)[userId], CleanUserPatch(name, email, deviceId))]
      ensures !ok ==> configUsers == old(configUsers) && legacyUsers == old(legacyUsers)
      ensures devices == old(devices) && groups == old(groups) && commands == old(commands)
    {
      var patch := CleanUserPatch(name, email, deviceId);
      if userId in configUsers {
        configUsers := configUsers[userId := ApplyUserPatch(configUsers[userId], patch)];
        ok := true;
      } else if userId in legacyUsers {
        legacyUsers := legacyUsers[userId := ApplyUserPatch(legacyUsers[userId], patch)];
        ok := true;
      } else {
        ok := false;
      }
    }

    /** `usersApi.delete`: deletes from both locations, each failure being
        swallowed, so it never fails; afterwards the id is in neither
        location and no other user is touched. */
    method DeleteUser(userId: string)
      modifies this
      ensures configUsers == old(configUsers) - {userId}
      ensures legacyUsers == old(legacyUsers) - {userId}
      ensures userId !in configUsers && userId !in legacyUsers
      ensures devices == old(devices) && groups == old(groups) && commands == old(commands)
    {
      configUsers := configUsers - {userId};
      legacyUsers := legacyUsers - {userId};
    }

    /** `groupsApi.create`: the form's fields plus a creation time. */
    method CreateGroup(newId: string, name: string, streamUrl: string, musicFiles: seq<string>, now: int)
      requires newId !in groups
      modifies this
      ensures groups == old(groups)[newId := GroupDoc(newId, Some(name), Some(streamUrl), Some(musicFiles), None, Some(now))]
      ensures devices == old(devices) && commands == old(commands)
      ensures configUsers == old(configUsers) && legacyUsers == old(legacyUsers)
    {
      groups := groups[newId := GroupDoc(newId, Some(name), Some(streamUrl), Some(musicFiles), None, Some(now))];
    }

    /** `deleteDoc` on a device: removing an absent document is a no-op. */
    method DeleteDevice(id: string)
      modifies this
      ensures devices == old(devices) - {id}
      ensures groups == old(groups) && commands == old(commands)
      ensures configUsers == old(configUsers) && legacyUsers == old(legacyUsers)
    {
      devices := devices - {id};
    }

    /** `updateDoc` of a group's `deviceCount`: fails when the group is absent. */
    method SetDeviceCount(id: string, count: nat) returns (ok: bool)
      modifies this
      ensures ok <==> id in old(groups)
      ensures ok ==> groups == old(groups)[id := old(groups)[id].(deviceCount := Some(count))]
      ensures !ok ==> groups == old(groups)
      ensures devices == old(devices) && commands == old(commands)
      ensures configUsers == old(configUsers) && legacyUsers == old(legacyUsers)
    {
      ok := id in groups;
      if ok {
        groups := groups[id := groups[id].(deviceCount := Some(count))];
      }
    }

    /** `updateDoc` of a device's group assignment: `groupId`, the legacy
        `group` and `streamUrl`; fails when the device is absent. */
    method SetDeviceGroup(id: string, groupId: string, streamUrl: string) returns (ok: bool)
      modifies this
      ensures ok <==> id in old(devices)
      ensures ok ==> devices == old(devices)[id := old(devices)[id].(groupId := Some(groupId), group := Some(groupId), streamUrl := Some(streamUrl))]
      ensures !ok ==> devices == old(devices)
      ensures groups == old(groups) && commands == old(commands)
      ensures configUsers == old(configUsers) && legacyUsers == old(legacyUsers)
    {
      ok := id in devices;
      if ok {
        devices := devices[id := devices[id].(groupId := Some(groupId), group := Some(groupId), streamUrl := Some(streamUrl))];
      }
    }
  }
}
