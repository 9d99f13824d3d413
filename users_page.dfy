/** The user administration page: a form that creates a user of the config
    location with a normalised e-mail address, a confirmed delete, and the
    lookup of the device a listed user is assigned to. */
module UsersPage {
  import opened Types
  import opened Text
  import FirebaseApi
  import StoreLogin

  const FILL_IN := "Fyll i namn och email"
  const USER_CREATED := "✅ Användare skapad!"
  const CREATE_FAILED := "❌ Kunde inte skapa användare"
  const USER_DELETED := "✅ Användare raderad!"

  /** The form's guard: both the name and the e-mail field, as typed, are
      non-empty. */
  predicate Valid(name: string, email: string) {
    name != "" && email != ""
  }

  /** The document a valid form creates: the typed name, the typed address
      lower-cased and trimmed, and the device only when one was chosen
      (`deviceId || undefined`). */
  function CreatedDoc(newId: string, name: string, email: string, deviceId: string, now: int): (u: UserDoc)
    ensures u.id == newId && u.name == Some(name) && u.createdAt == Some(now)
    ensures u.email == Some(NormalizeEmail(email))
    ensures u.deviceId.None? <==> deviceId == ""
    ensures u.deviceId.Some? ==> u.deviceId.value == deviceId
  {
    FirebaseApi.NewUserDoc(newId, name, NormalizeEmail(email), if deviceId == "" then None else Some(deviceId), now)
  }

  /** How a submit ends. */
  datatype SubmitOutcome = Invalid | Created(userDoc: string) | CreateFailed

  class UserForm {
    const store: FirebaseApi.Store
    var name: string
    var email: string
    var deviceId: string
    var showForm: bool
    /** The last alert shown. */
    var alert: Option<string>

    constructor (store: FirebaseApi.Store)
      ensures this.store == store
      ensures name == "" && email == "" && deviceId == "" && !showForm && alert.None?
    {
      this.store := store;
      name, email, deviceId := "", "", "";
      showForm, alert := false, None;
    }

    /** `handleSubmit`. `newId` is the id the store hands out, and
        `writeFails` says whether the create throws; then nothing is
        written and the form keeps what was typed. */
    method HandleSubmit(newId: string, now: int, writeFails: bool) returns (outcome: SubmitOutcome)
      requires newId !in store.configUsers
      modifies this, store
      ensures outcome.Invalid? <==> !Valid(old(name), old(email))
      ensures outcome.Created? <==> Valid(old(name), old(email)) && !writeFails
      ensures outcome.Created? ==> outcome.userDoc == newId
      ensures outcome.Created? ==>
                store.configUsers == old(store.configUsers)[newId := CreatedDoc(newId, old(name), old(email), old(deviceId), now)]
                && name == "" && email == "" && deviceId == "" && !showForm && alert == Some(USER_CREATED)
      ensures !outcome.Created? ==>
                store.configUsers == old(store.configUsers)
                && name == old(name) && email == old(email) && deviceId == old(deviceId) && showForm == old(showForm)
      ensures outcome.Invalid? ==> alert == Some(FILL_IN)
      ensures outcome.CreateFailed? ==> alert == Some(CREATE_FAILED)
      ensures store.legacyUsers == old(store.legacyUsers)
      ensures store.devices == old(store.devices) && store.groups == old(store.groups) && store.commands == old(store.commands)
    {
      if name == "" || email == "" {
        alert := Some(FILL_IN);
        return Invalid;
      }
      if writeFails {
        alert := Some(CREATE_FAILED);
        return CreateFailed;
      }
      store.CreateUser(newId, name, NormalizeEmail(email), if deviceId == "" then None else Some(deviceId), now);
      name, email, deviceId := "", "", "";
      showForm := false;
      alert := Some(USER_CREATED);
      outcome := Created(newId);
    }

    /** `handleDelete`: only once confirmed, and then from both locations
        (the delete never fails). */
    method HandleDelete(userId: string, confirmed: bool)
      modifies this, store
      ensures !confirmed ==> store.configUsers == old(store.configUsers) && store.legacyUsers == old(store.legacyUsers) && alert == old(alert)
      ensures confirmed ==>
                store.configUsers == old(store.configUsers) - {userId}
                && store.legacyUsers == old(store.legacyUsers) - {userId}
                && alert == Some(USER_DELETED)
      ensures name == old(name) && email == old(email) && deviceId == old(deviceId) && showForm == old(showForm)
      ensures store.devices == old(store.devices) && store.groups == old(store.groups) && store.commands == old(store.commands)
    {
      if !confirmed {
        return;
      }
      store.DeleteUser(userId);
      alert := Some(USER_DELETED);
    }
  }

  /** A created user can log in at the store page by typing the address as
      it was typed in the form, or in any spelling with the same normal
      form, and also by typing the stored address itself. */
  lemma CreatedUserLogsIn(newId: string, name: string, email: string, deviceId: string, now: int, typed: string)
    requires NormalizeEmail(typed) == NormalizeEmail(email)
    ensures StoreLogin.FirstMatch([CreatedDoc(newId, name, email, deviceId, now)], NormalizeEmail(typed)) == Some(0)
    ensures var stored := CreatedDoc(newId, name, email, deviceId, now).email.value;
            StoreLogin.FirstMatch([CreatedDoc(newId, name, email, deviceId, now)], NormalizeEmail(stored)) == Some(0)
  {
    NormalizeIdempotent(email);
  }

  /** The guard looks at the address as typed, the document gets it
      trimmed: an address of blanks passes the guard and is stored empty. */
  lemma BlankEmailStoredEmpty()
    ensures Valid("Kim", " ")
    ensures CreatedDoc("u1", "Kim", " ", "", 0).email == Some("")
  {
    assert IsWhitespace(" "[0]) && " "[1..] == "";
  }

  /** `devices.find(d => d.id === user.deviceId)`: the first listed device
      whose document id is the user's `deviceId`; a user without one has
      none. */
  function AssignedDevice(devices: seq<DeviceDoc>, deviceId: Option<string>): (r: Option<DeviceDoc>)
    ensures r.Some? <==> deviceId.Some? && exists i :: 0 <= i < |devices| && devices[i].id == deviceId.value
    ensures r.Some? ==> r.value in devices && r.value.id == deviceId.value
    ensures r.Some? ==> exists i :: 0 <= i < |devices| && devices[i] == r.value && forall j :: 0 <= j < i ==> devices[j].id != deviceId.value
  {
    if deviceId.None? || devices == [] then None
    else if devices[0].id == deviceId.value then Some(devices[0])
    else
      var r := AssignedDevice(devices[1..], deviceId);
      assert r.Some? ==> exists i :: 0 < i < |devices| && devices[i] == r.value && forall j :: 0 <= j < i ==> devices[j].id != deviceId.value by {
        if r.Some? {
          var k :| 0 <= k < |devices| - 1 && devices[1..][k] == r.value && forall j :: 0 <= j < k ==> devices[1..][j].id != deviceId.value;
          assert devices[k + 1] == r.value;
          assert forall j :: 0 <= j < k + 1 ==> devices[j].id != deviceId.value by {
            forall j | 0 <= j < k + 1 ensures devices[j].id != deviceId.value {
              if j > 0 {
                assert devices[j] == devices[1..][j - 1];
              }
            }
          }
        }
      }
      assert r.None? ==> forall i :: 0 <= i < |devices| ==> devices[i].id != deviceId.value by {
        if r.None? {
          forall i | 0 <= i < |devices| ensures devices[i].id != deviceId.value {
            if i > 0 {
              assert devices[i] == devices[1..][i - 1];
            }
          }
        }
      }
      r
  }

  /** The assigned-device column: the device's name and IP address, or the
      "No device" placeholder. */
  datatype DeviceCell = NoDevice | DeviceInfo(name: Option<string>, ipAddress: Option<string>)

  function AssignedCell(devices: seq<DeviceDoc>, user: UserDoc): (c: DeviceCell)
    ensures c.NoDevice? <==> AssignedDevice(devices, user.deviceId).None?
    ensures c.DeviceInfo? ==>
              var d := AssignedDevice(devices, user.deviceId).value;
              c.name == d.name && c.ipAddress == d.ipAddress
  {
    match AssignedDevice(devices, user.deviceId)
    case None => NoDevice
    case Some(d) => DeviceInfo(d.name, d.ipAddress)
  }

  /** Against the device feed the page subscribes to, which lists only the
      devices that report `lastSeen`, the lookup finds the stored device
      exactly when the user's `deviceId` names one that reports a time; a
      user pointing at a deleted device, or at one that never reported,
      shows "No device". */
  lemma AssignedIsStored(devices: seq<DeviceDoc>, m: map<string, DeviceDoc>, user: UserDoc)
    requires FirebaseApi.IsDeviceFeed(devices, m)
    ensures user.deviceId.Some? && user.deviceId.value in m && m[user.deviceId.value].lastSeen.Some? ==>
              AssignedCell(devices, user) == DeviceInfo(m[user.deviceId.value].name, m[user.deviceId.value].ipAddress)
    ensures user.deviceId.None? || user.deviceId.value !in m || m[user.deviceId.value].lastSeen.None? ==>
              AssignedCell(devices, user) == NoDevice
  {
    if user.deviceId.Some? && user.deviceId.value in m && m[user.deviceId.value].lastSeen.Some? {
      var id := user.deviceId.value;
      var i :| 0 <= i < |devices| && devices[i].id == id;
      var d := AssignedDevice(devices, user.deviceId).value;
      assert d in devices;
      var k :| 0 <= k < |devices| && devices[k] == d;
      assert m[devices[k].id] == devices[k];
    } else if user.deviceId.Some? {
      assert forall k :: 0 <= k < |devices| ==> devices[k].id != user.deviceId.value;
    }
  }
}
