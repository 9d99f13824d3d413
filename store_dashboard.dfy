/** The store control panel: a shop's page that follows its one device and
    sends it playback commands. The page state is the stored session, the
    device as last seen and the local volume; every handler queues at most
    one command, and only once a device has been loaded. */
module StoreDashboard {
  import opened Types
  import FirebaseApi
  import StoreLogin

  const PLAYING := "playing"
  const LOGIN_ROUTE := "/store"
  const INITIAL_VOLUME := 100

  /** The play button is disabled exactly while the device plays. */
  predicate PlayEnabled(d: DeviceDoc) {
    d.status != Some(PLAYING)
  }

  /** The pause button is enabled exactly while the device plays. */
  predicate PauseEnabled(d: DeviceDoc) {
    d.status == Some(PLAYING)
  }

  /** Whichever state the device is in, exactly one of play and pause can be
      pressed (stop always can). */
  lemma PlayXorPause(d: DeviceDoc)
    ensures PlayEnabled(d) != PauseEnabled(d)
  {
  }

  /** The volume a device snapshot brings into the page: its own volume when
      that is truthy, otherwise the one the page already shows. */
  function SyncedVolume(current: int, d: DeviceDoc): (v: int)
    ensures d.volume.Some? && d.volume.value != 0 ==> v == d.volume.value
    ensures d.volume.None? || d.volume.value == 0 ==> v == current
  {
    if d.volume.Some? && d.volume.value != 0 then d.volume.value else current
  }

  /** A device reporting volume 0 never moves the slider to 0. */
  lemma ZeroVolumeNeverSyncs(current: int, d: DeviceDoc)
    requires d.volume == Some(0)
    ensures SyncedVolume(current, d) == current
  {
  }

  /** The volume command for level 0 carries no level: `volume || null`. */
  lemma ZeroVolumeCommandHasNoLevel(deviceId: string, now: int)
    ensures FirebaseApi.SendRecord(deviceId, FirebaseApi.VOLUME, None, Some(0), now).payload.volume == None
    ensures forall v :: 0 < v <= 100 ==>
              FirebaseApi.SendRecord(deviceId, FirebaseApi.VOLUME, None, Some(v), now).payload.volume == Some(v)
  {
  }

  /** What opening the page does. */
  datatype Mount = Redirect | Subscribe(deviceDoc: string) | Idle

  /** Opening the page: without a stored session it leaves for the login
      page; with one it listens to the session's device when the session
      names one. */
  function MountAction(stored: Option<StoreLogin.Session>): (a: Mount)
    ensures a.Redirect? <==> stored.None?
    ensures a.Subscribe? <==> stored.Some? && Truthy(stored.value.deviceId)
    ensures a.Subscribe? ==> a.deviceDoc == stored.value.deviceId.value
  {
    match stored
    case None => Redirect
    case Some(s) => if Truthy(s.deviceId) then Subscribe(s.deviceId.value) else Idle
  }

  class Panel {
    const store: FirebaseApi.Store
    /** The session storage entry `storeUser`. */
    var stored: Option<StoreLogin.Session>
    var user: Option<StoreLogin.Session>
    var device: Option<DeviceDoc>
    var volume: int
    /** The device document the page listens to, once subscribed. */
    var listening: Option<string>
    /** Where the router was last sent. */
    var route: Option<string>

    constructor (store: FirebaseApi.Store, stored: Option<StoreLogin.Session>)
      ensures this.store == store && this.stored == stored
      ensures user.None? && device.None? && volume == INITIAL_VOLUME
      ensures listening.None? && route.None?
    {
      this.store := store;
      this.stored := stored;
      user, device, volume := None, None, INITIAL_VOLUME;
      listening, route := None, None;
    }

    /** The mount effect: read the session, then redirect or subscribe. */
    method OnMount()
      modifies this
      ensures stored == old(stored) && device == old(device) && volume == old(volume)
      ensures MountAction(stored).Redirect? ==> route == Some(LOGIN_ROUTE) && user == old(user) && listening == old(listening)
      ensures !MountAction(stored).Redirect? ==> user == stored && route == old(route)
      ensures MountAction(stored).Subscribe? ==> listening == Some(MountAction(stored).deviceDoc)
      ensures MountAction(stored).Idle? ==> listening == old(listening)
    {
      var action := MountAction(stored);
      match action
      case Redirect => route := Some(LOGIN_ROUTE);
      case Subscribe(id) => user := stored; listening := Some(id);
      case Idle => user := stored;
    }

    /** A snapshot of the listened-to document: when it exists the page
      takes it as its device and syncs the volume. */
    method OnDeviceSnapshot(snapshot: Option<DeviceDoc>)
      requires listening.Some? && (snapshot.Some? ==> snapshot.value.id == listening.value)
      modifies this
      ensures snapshot.None? ==> device == old(device) && volume == old(volume)
      ensures snapshot.Some? ==> device == snapshot && volume == SyncedVolume(old(volume), snapshot.value)
      ensures stored == old(stored) && user == old(user) && listening == old(listening) && route == old(route)
    {
      if snapshot.Some? {
        device := snapshot;
        volume := SyncedVolume(volume, snapshot.value);
      }
    }

    /** `handlePlay`: play the device's own stream. */
    method Play(now: int)
      modifies store
      ensures device.None? ==> store.commands == old(store.commands)
      ensures device.Some? ==>
                store.commands == old(store.commands) + [FirebaseApi.SendRecord(device.value.id, FirebaseApi.PLAY, device.value.streamUrl, None, now)]
      ensures store.devices == old(store.devices) && store.groups == old(store.groups)
      ensures store.configUsers == old(store.configUsers) && store.legacyUsers == old(store.legacyUsers)
    {
      if device.None? {
        return;
      }
      store.Send(device.value.id, FirebaseApi.PLAY, device.value.streamUrl, None, now);
    }

    /** `handlePause`: no stream, no level. */
    method Pause(now: int)
      modifies store
      ensures device.None? ==> store.commands == old(store.commands)
      ensures device.Some? ==>
                store.commands == old(store.commands) + [FirebaseApi.SendRecord(device.value.id, FirebaseApi.PAUSE, None, None, now)]
      ensures store.devices == old(store.devices) && store.groups == old(store.groups)
      ensures store.configUsers == old(store.configUsers) && store.legacyUsers == old(store.legacyUsers)
    {
      if device.None? {
        return;
      }
      store.Send(device.value.id, FirebaseApi.PAUSE, None, None, now);
    }

    /** `handleStop`. */
    method Stop(now: int)
      modifies store
      ensures device.None? ==> store.commands == old(store.commands)
      ensures device.Some? ==>
                store.commands == old(store.commands) + [FirebaseApi.SendRecord(device.value.id, FirebaseApi.STOP, None, None, now)]
      ensures store.devices == old(store.devices) && store.groups == old(store.groups)
      ensures store.configUsers == old(store.configUsers) && store.legacyUsers == old(store.legacyUsers)
    {
      if device.None? {
        return;
      }
      store.Send(device.value.id, FirebaseApi.STOP, None, None, now);
    }

    /** `handleVolumeChange`: the slider gives a level from 0 to 100; the
      page shows it at once, then queues it. */
    method VolumeChange(level: int, now: int)
      requires 0 <= level <= 100
      modifies this, store
      ensures device == old(device) && stored == old(stored) && user == old(user)
      ensures listening == old(listening) && route == old(route)
      ensures old(device).None? ==> volume == old(volume) && store.commands == old(store.commands)
      ensures old(device).Some? ==>
                volume == level && store.commands == old(store.commands) + [FirebaseApi.SendRecord(device.value.id, FirebaseApi.VOLUME, None, Some(level), now)]
      ensures store.devices == old(store.devices) && store.groups == old(store.groups)
      ensures store.configUsers == old(store.configUsers) && store.legacyUsers == old(store.legacyUsers)
    {
      if device.None? {
        return;
      }
      volume := level;
      store.Send(device.value.id, FirebaseApi.VOLUME, None, Some(level), now);
    }

    /** `handleRestart`: a system update, only once the user confirms. */
    method Restart(confirmed: bool, now: int)
      modifies store
      ensures device.None? || !confirmed ==> store.commands == old(store.commands)
      ensures device.Some? && confirmed ==>
                store.commands == old(store.commands) + [FirebaseApi.SystemUpdateRecord(device.value.id, now)]
      ensures store.devices == old(store.devices) && store.groups == old(store.groups)
      ensures store.configUsers == old(store.configUsers) && store.legacyUsers == old(store.legacyUsers)
    {
      if device.None? {
        return;
      }
      if confirmed {
        store.SendSystemUpdate(device.value.id, now);
      }
    }

    /** `handleLogout`: forget the session and go back to the login page. */
    method Logout()
      modifies this
      ensures stored.None? && route == Some(LOGIN_ROUTE)
      ensures user == old(user) && device == old(device) && volume == old(volume) && listening == old(listening)
    {
      stored := None;
      route := Some(LOGIN_ROUTE);
    }
  }
}
