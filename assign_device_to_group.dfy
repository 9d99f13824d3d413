/** The one-off assignment script: it takes the first device of the device
    collection and the first group named exactly "Butik Musik", and points
    the device at the group and its stream. */
module AssignDeviceToGroup {
  import opened Types
  import FirebaseApi

  const TARGET_GROUP := "Butik Musik"

  /** The position of the first group whose name is exactly `name`
      (`docs.find`, which compares with `===`). */
  function FindNamed(gs: seq<GroupDoc>, name: string): (r: Option<nat>)
    ensures r.Some? ==> r.value < |gs| && gs[r.value].name == Some(name)
    ensures r.Some? ==> forall j :: 0 <= j < r.value ==> gs[j].name != Some(name)
    ensures r.None? ==> forall j :: 0 <= j < |gs| ==> gs[j].name != Some(name)
  {
    if gs == [] then None
    else if gs[0].name == Some(name) then Some(0)
    else match FindNamed(gs[1..], name)
      case None => None
      case Some(j) => Some(j + 1)
  }

  /** How a run ends. `Rejected` is a group without a stream URL: the
      update then carries an `undefined` field, which the store refuses
      before writing anything, and the script dies with the rejection. */
  datatype Outcome = NotFound | Rejected | Assigned(deviceDoc: string, groupDoc: string)

  /** The script against the store. The device snapshot and the group
      snapshot are the two reads it makes. */
  method AssignDeviceToGroup(store: FirebaseApi.Store, devicesSnap: seq<DeviceDoc>, groupsSnap: seq<GroupDoc>)
    returns (outcome: Outcome)
    requires IsDeviceSnapshot(devicesSnap, store.devices)
    modifies store
    ensures var g := FindNamed(groupsSnap, TARGET_GROUP);
            outcome == if devicesSnap == [] || g.None? then NotFound
                       else if groupsSnap[g.value].streamUrl.None? then Rejected
                       else Assigned(devicesSnap[0].id, groupsSnap[g.value].id)
    ensures outcome.Assigned? ==>
              var d := old(store.devices)[outcome.deviceDoc];
              var url := groupsSnap[FindNamed(groupsSnap, TARGET_GROUP).value].streamUrl;
              store.devices == old(store.devices)[outcome.deviceDoc :=
                d.(groupId := Some(outcome.groupDoc), group := Some(outcome.groupDoc), streamUrl := url)]
    ensures !outcome.Assigned? ==> store.devices == old(store.devices)
    ensures store.groups == old(store.groups) && store.commands == old(store.commands)
    ensures store.configUsers == old(store.configUsers) && store.legacyUsers == old(store.legacyUsers)
  {
    var g := FindNamed(groupsSnap, TARGET_GROUP);
    if devicesSnap == [] || g.None? {
      return NotFound;
    }
    var device := devicesSnap[0];
    var group := groupsSnap[g.value];
    if group.streamUrl.None? {
      return Rejected;
    }
    var ok := store.SetDeviceGroup(device.id, group.id, group.streamUrl.value);
    outcome := Assigned(device.id, group.id);
  }

  /** The lookup is by exact name: a group named with other letter case is
      not found. */
  lemma NameIsExact()
    ensures FindNamed([GroupDoc("g1", Some("butik musik"), None, None, None, None)], TARGET_GROUP) == None
    ensures FindNamed([GroupDoc("g1", Some("butik musik"), None, None, None, None),
                       GroupDoc("g2", Some("Butik Musik"), Some("http://s"), None, None, None)], TARGET_GROUP) == Some(1)
  {
  }
}
