# Radio admin console — a verified model of its record logic

The repository is a Next.js admin console for a fleet of networked radio
players. It keeps its state in Firestore:

- devices, groups and users under `config/...`;
- an older user collection at the root (`users`);
- a queue of commands that the players poll.

The web pages and a few maintenance scripts read these collections and
write to them. Underneath the UI sits deterministic logic over finite
collections of records, and this project models that logic in Dafny:

- **the duplicate-device cleanup script**: bucket the device records by
  logical id and by IP address; in each bucket keep the latest-seen record;
  delete the union of the others;
- **the group count sync script**: count devices per group key, with the
  legacy fallback, and write `deviceCount` to every group;
- **the one-shot assignment script**: put the first device into the group
  named "Butik Musik";
- **the store accessors**:
  - the command records;
  - the create and update field rules for users;
  - the two-location update, delete and subscribe policies for users;
  - the ordered device and group feeds;
- **the shop login**: normalise the e-mail address, look in the config
  location and then the legacy one, first match wins;
- **the shop control panel**: a session, a device and a volume, with one
  command per handler;
- **the dashboard figures**: status counts, rounded percentages, the
  status pie and the five largest groups;
- **the activity-log filter and its badges**;
- **the user form**: validation, normalisation, confirmed delete, and the
  assigned-device column;
- **the group form**:
  - the upload loop and the file list;
  - the create-and-reset step;
  - the file label, `decodeURIComponent` included;
- **the device list's badges and fallbacks**.

The Firestore store is a class `FirebaseApi.Store`:

- one `map` per location: `devices`, `groups`, `configUsers`, `legacyUsers`;
- a `seq` for the command queue.

Every script or handler that writes is a method that modifies the store. Each
such method states the whole new state of the store, and that nothing else
changes. A snapshot read (`getDocs`, `onSnapshot`) is a `seq` parameter tied to
the map it was read from (`Types.IsDeviceSnapshot`, `Types.IsGroupSnapshot`).

Four things the code cannot see become parameters:

- the ids `addDoc` hands out (`newId`, required fresh);
- `serverTimestamp()` and `Date.now()` (`now`, `times`);
- the answers of `confirm()` (`confirmed`);
- whether a write throws (`writeFails`, `configFails`, `legacyFails`, and
  per-file upload `results`).

Modules, one per source file:

| module | source |
|---|---|
| `Types` | the record shapes of `src/types/index.ts` and the stored documents; JavaScript truthiness |
| `Text` | `toLowerCase`, `trim`, `includes`, and `${n}` for a natural number |
| `UriComponent` | `decodeURIComponent` (section 19.2.6 of ECMA-262) and an encoder to state its round trip |
| `FirebaseApi` | `src/services/firebase-api.ts` and the store |
| `CleanupDevices` | `src/scripts/cleanup-devices.ts` |
| `SyncGroupCounts` | `src/scripts/sync-group-counts.ts` |
| `AssignDeviceToGroup` | `src/scripts/assign-device-to-group.ts` |
| `StoreLogin` | `src/app/store/page.tsx` |
| `StoreDashboard` | `src/app/store/dashboard/page.tsx` |
| `DashboardStats` | `src/app/dashboard/page.tsx` |
| `LogsPage` | `src/app/dashboard/logs/page.tsx` |
| `UsersPage` | `src/app/dashboard/users/page.tsx` |
| `GroupsPage` | `src/app/dashboard/groups/page.tsx` |
| `DevicesPage` | `src/app/dashboard/devices/page.tsx` |

Where the code does less than its comments and documentation suggest, the
model follows the code:

- **Cleanup leaves at most one survivor per key, not exactly one.** A record
  kept by its id bucket can still be deleted by its IP bucket, so a logical
  device can lose every record. `CleanupDevices.BucketCanEmpty` exhibits it.
- **Only a user's `deviceId` is ever cleared with `deleteField`.** Other
  fields left undefined in an update are left alone.

## Model

| member | source | states |
|---|---|---|
| CleanupDevices.KeyIn | src/scripts/cleanup-devices.ts:32-56 | a record's id key is `deviceId`, falling back to the document id, so every record has one; it has an IP key exactly when `ipAddress` is non-empty and not `N/A` or `unknown`, and the key is that address |
| CleanupDevices.BucketMembers | src/scripts/cleanup-devices.ts:44-56 | a bucket holds exactly the snapshot positions whose key is that key, each once, in snapshot order |
| CleanupDevices.Push | src/scripts/cleanup-devices.ts:45-48 | pushing creates the bucket when it is missing, appends the record to it, and leaves every other bucket unchanged |
| CleanupDevices.BuildBuckets | src/scripts/cleanup-devices.ts:30-57 | the `forEach` leaves the id map and the IP map with exactly the snapshot's keys, each key holding its bucket |
| CleanupDevices.LatestIn | src/scripts/cleanup-devices.ts:70-71 | the record the sort puts first is a member of the bucket that beats every other member: latest `lastSeen`, ties to the earliest in the snapshot (the sort is stable) |
| CleanupDevices.BeatsTotal | src/scripts/cleanup-devices.ts:70 | of two different records exactly one sorts first |
| CleanupDevices.LosesInBucket | src/scripts/cleanup-devices.ts:70-76 | in a bucket, a record is marked exactly when it is not the one kept |
| CleanupDevices.NoLoserInSmallBucket | src/scripts/cleanup-devices.ts:66 | a record alone in its bucket is never marked |
| CleanupDevices.SmallBucketNoLosers | src/scripts/cleanup-devices.ts:66 | a bucket of at most one record marks nothing |
| CleanupDevices.MarkLosers | src/scripts/cleanup-devices.ts:73-76 | the inner loop adds the document id of every member but the kept one |
| CleanupDevices.LoserIdsOfBucket | src/scripts/cleanup-devices.ts:70-76 | those ids are exactly the ids of the bucket's marked records |
| CleanupDevices.MarkBucket | src/scripts/cleanup-devices.ts:66-77 | one bucket reports whether it is a duplicate group (size above 1), and gives the ids it marks |
| CleanupDevices.MarkPartition | src/scripts/cleanup-devices.ts:65-100 | one pass over a bucket map adds to `toDelete` the marked ids of all its buckets, and adds its duplicate groups to `duplicatesFound` |
| CleanupDevices.BothPasses | src/scripts/cleanup-devices.ts:61-100 | the two passes together mark exactly the delete set, and count the duplicate groups of both partitions |
| CleanupDevices.PlanCleanup | src/scripts/cleanup-devices.ts:59-100 | the planning part of the script yields exactly the delete set and the number of duplicate groups of both partitions |
| CleanupDevices.DeletedIff | src/scripts/cleanup-devices.ts:61-100 | an id is in the delete set exactly when its record is marked by the id pass or by the IP pass; an id flagged twice is one entry |
| CleanupDevices.DeleteAll | src/scripts/cleanup-devices.ts:103-110 | the deletion loop removes exactly the delete set from the devices, counts one removal per id, and touches nothing else |
| CleanupDevices.CleanupDuplicateDevices | src/scripts/cleanup-devices.ts:17-116 | the script removes exactly the delete set; the report gives the scanned count, the duplicate groups, the removed count (the size of the delete set), and a remaining count equal to the devices left |
| CleanupDevices.RemainingCount | src/scripts/cleanup-devices.ts:113-116 | "remaining" (scanned minus removed) is the number of device documents left |
| CleanupDevices.AtMostOneKept | src/scripts/cleanup-devices.ts:70-98 | of two records that share a key, at least one is marked: at most one survivor per id and per IP |
| CleanupDevices.OneKeptPerBucket | src/scripts/cleanup-devices.ts:70-71 | every bucket has a record its own pass keeps |
| CleanupDevices.MissingLastSeenLoses | src/scripts/cleanup-devices.ts:39 | a record without `lastSeen` counts as the epoch, and loses to any record of its bucket with a later time |
| CleanupDevices.BucketCanEmpty | src/scripts/cleanup-devices.ts:65-100 | three concrete records: both records of logical id `x` are deleted, one by the id pass and one by the IP pass |
| CleanupDevices.SurvivorKept | src/scripts/cleanup-devices.ts:65-100 | read back after the cleanup, no remaining record is marked by either pass |
| CleanupDevices.SecondRunDeletesNothing | src/scripts/cleanup-devices.ts:65-110 | a second run over what the first run left deletes nothing |
| SyncGroupCounts.GroupKey | src/scripts/sync-group-counts.ts:30-31 | a device's group key is a truthy `groupId`, else a truthy legacy `group`, else none; a key is never empty |
| SyncGroupCounts.CountDevices | src/scripts/sync-group-counts.ts:27-34 | the count map holds, for every key that occurs, the number of devices with that key, and no other entry |
| SyncGroupCounts.Synced | src/scripts/sync-group-counts.ts:37-41 | every group gets `deviceCount` equal to the number of devices keyed to its id (0 when none); no other field and no other group changes |
| SyncGroupCounts.SyncGroupCounts | src/scripts/sync-group-counts.ts:37-41 | over a read of the stored devices and groups, the write loop leaves the groups exactly as `Synced` says, and leaves the devices, users and commands unchanged |
| SyncGroupCounts.WriteCounts | src/scripts/sync-group-counts.ts:37-44 | the update loop writes every group of the snapshot its tally, 0 when it has none, so the groups end exactly as `Synced` says; nothing else changes |
| SyncGroupCounts.SyncIdempotent | src/scripts/sync-group-counts.ts:37-41 | a second sync over the same devices writes the same values |
| SyncGroupCounts.CountsBounded | src/scripts/sync-group-counts.ts:29-34 | over groups with distinct ids, the written counts add up to at most the number of devices |
| SyncGroupCounts.CountsExact | src/scripts/sync-group-counts.ts:29-34 | when every device's key names an existing group, the counts add up to exactly the number of devices |
| AssignDeviceToGroup.FindNamed | src/scripts/assign-device-to-group.ts:28 | `find` yields the first group whose name is exactly the one sought, or none when no group has it |
| AssignDeviceToGroup.AssignDeviceToGroup | src/scripts/assign-device-to-group.ts:20-44 | no device or no "Butik Musik" group means nothing is written; otherwise the first device gets `groupId`, legacy `group` and `streamUrl` from that group; a group without `streamUrl` makes Firestore reject the write; every other record stays unchanged |
| AssignDeviceToGroup.NameIsExact | src/scripts/assign-device-to-group.ts:28 | the match is exact: "butik musik" is not found, and a later exact match is |
| FirebaseApi.SendRecord | src/services/firebase-api.ts:172-181 | `send` builds an unprocessed record with the device, the action and the time; a falsy `streamUrl` is stored as null, and so is a falsy volume, 0 included |
| FirebaseApi.SystemUpdateRecord | src/services/firebase-api.ts:184-192 | action `system_update`, no payload |
| FirebaseApi.WifiConfigRecord | src/services/firebase-api.ts:194-204 | action `configure_wifi` with the SSID and the password |
| FirebaseApi.NetworkConfigRecord | src/services/firebase-api.ts:206-226 | action `network_config`; a falsy `dns2` is stored as the empty string, and a missing interface as `eth0` |
| FirebaseApi.Store.Send | src/services/firebase-api.ts:172-182 | the queue grows by exactly that one record; no other location changes |
| FirebaseApi.Store.SendSystemUpdate | src/services/firebase-api.ts:184-192 | the queue grows by exactly the system-update record |
| FirebaseApi.Store.SendWifiConfig | src/services/firebase-api.ts:194-204 | the queue grows by exactly the Wi-Fi record |
| FirebaseApi.Store.SendNetworkConfig | src/services/firebase-api.ts:206-226 | the queue grows by exactly the network record |
| FirebaseApi.NewUserDoc | src/services/firebase-api.ts:106-121 | `create` stores the name, the e-mail and the creation time, and stores `deviceId` only when it is truthy |
| FirebaseApi.Store.CreateUser | src/services/firebase-api.ts:106-121 | a created user lands in the config location only, under a fresh id |
| FirebaseApi.CleanUserPatch | src/services/firebase-api.ts:123-140 | `update` sets `name` and `email` only when given; an undefined, null or empty `deviceId` becomes a field deletion, any other value is set |
| FirebaseApi.ApplyUserPatch | src/services/firebase-api.ts:143-149 | applying the update changes exactly the patched fields and keeps the id and the creation time |
| FirebaseApi.UserPatchIdempotent | src/services/firebase-api.ts:123-150 | applying the same update twice gives what applying it once gives |
| FirebaseApi.Store.UpdateUser | src/services/firebase-api.ts:123-151 | the config location is updated when it holds the user; otherwise the legacy location is tried; when neither holds it, the error propagates and nothing changes |
| FirebaseApi.Store.DeleteUser | src/services/firebase-api.ts:153-167 | both locations are tried, neither error escapes, and afterwards the id is in neither location |
| FirebaseApi.MergedUsers | src/services/firebase-api.ts:82-101 | the subscription delivers the config users followed by the legacy users, or only the config users when the legacy read fails |
| FirebaseApi.MergedUsersKeepsDuplicates | src/services/firebase-api.ts:96 | nothing is de-duplicated: a user in both locations is delivered twice |
| FirebaseApi.DeviceFeedHeadIsLatest | src/services/firebase-api.ts:19-29 | in the device feed, ordered by `lastSeen` descending, the first device was seen no earlier than any stored device that has `lastSeen` |
| FirebaseApi.StringLeTotal | src/services/firebase-api.ts:47 | the order of group names is total and antisymmetric |
| FirebaseApi.GroupFeedHeadIsFirst | src/services/firebase-api.ts:45-55 | in the group feed, ordered by name ascending, the first group's name comes no later than any stored group name |
| FirebaseApi.Store.CreateGroup | src/services/firebase-api.ts:58-64 | a created group is stored under a fresh id with the form's data and the creation time |
| FirebaseApi.Store.DeleteDevice | src/services/firebase-api.ts:37-40 | deleting removes that device document and nothing else |
| FirebaseApi.Store.SetDeviceCount | src/scripts/sync-group-counts.ts:39-41 | the update sets `deviceCount` of an existing group and fails without effect on a missing one |
| FirebaseApi.Store.SetDeviceGroup | src/scripts/assign-device-to-group.ts:40-44 | the update sets the three group fields of an existing device and fails without effect on a missing one |
| StoreLogin.FirstMatch | src/app/store/page.tsx:35-49 | the first document of a location whose stored e-mail equals the normalised input, or none |
| StoreLogin.Query | src/app/store/page.tsx:32-33 | the equality query returns only documents with that e-mail; it is empty exactly when there is no match, and headed by the first match |
| StoreLogin.SessionOf | src/app/store/page.tsx:59-64 | the session holds exactly the matched document's id, e-mail, name and `deviceId` |
| StoreLogin.HandleLogin | src/app/store/page.tsx:19-74 | the config location decides when it has a match; the legacy location is asked only otherwise; no match is "Email not found"; a thrown read is "Login failed"; a session is written only on a match, and carries the normalised e-mail |
| StoreLogin.UnnormalizedNeverMatches | src/app/store/page.tsx:32 | a stored address with capitals or surrounding blanks can never be logged in with, since stored addresses are not normalised |
| StoreLogin.NormalizeExample | src/app/store/page.tsx:32 | " Ab@C.se\t" normalises to "ab@c.se" |
| StoreDashboard.PlayXorPause | src/app/store/dashboard/page.tsx:127-151 | play is disabled exactly while the device plays, and pause exactly while it does not; stop has no disabling rule |
| StoreDashboard.SyncedVolume | src/app/store/dashboard/page.tsx:36-38 | a snapshot moves the slider to the device's volume only when that volume is truthy |
| StoreDashboard.ZeroVolumeNeverSyncs | src/app/store/dashboard/page.tsx:36-38 | a device reporting volume 0 never moves the slider |
| StoreDashboard.ZeroVolumeCommandHasNoLevel | src/app/store/dashboard/page.tsx:61-65 | the volume command for level 0 carries null; every level from 1 to 100 is carried as given |
| StoreDashboard.MountAction | src/app/store/dashboard/page.tsx:20-43 | without a stored session the page redirects; with one it subscribes exactly when the session has a truthy `deviceId` |
| StoreDashboard.Panel.OnMount | src/app/store/dashboard/page.tsx:20-43 | mounting redirects to `/store`, or sets the user and listens to the session's device |
| StoreDashboard.Panel.OnDeviceSnapshot | src/app/store/dashboard/page.tsx:32-40 | a snapshot of the document being listened to: an existing document replaces the device and syncs the volume; a missing one changes nothing |
| StoreDashboard.Panel.Play | src/app/store/dashboard/page.tsx:46-49 | with a device, one `play` command carrying the device's `streamUrl`; without one, nothing |
| StoreDashboard.Panel.Pause | src/app/store/dashboard/page.tsx:51-54 | with a device, one `pause` command without URL or level; without one, nothing |
| StoreDashboard.Panel.Stop | src/app/store/dashboard/page.tsx:56-59 | with a device, one `stop` command without URL or level; without one, nothing |
| StoreDashboard.Panel.VolumeChange | src/app/store/dashboard/page.tsx:61-65 | with a device, the local volume becomes the new level, and one `volume` command carrying it is queued; without one, nothing changes |
| StoreDashboard.Panel.Restart | src/app/store/dashboard/page.tsx:67-73 | one `system_update` command, only when confirmed and a device is loaded |
| StoreDashboard.Panel.Logout | src/app/store/dashboard/page.tsx:75-78 | the stored session is removed and the router goes to `/store` |
| DashboardStats.CountsSplit | src/app/dashboard/page.tsx:34-38 | online is online plus playing, and online, offline and unconfigured together are at most all devices |
| DashboardStats.Percent | src/app/dashboard/page.tsx:40-41 | the percentage is 0 when there are no devices |
| DashboardStats.PercentRounds | src/app/dashboard/page.tsx:40-41 | with devices, the percentage is 100·k/n rounded to the nearest integer, halves up |
| DashboardStats.PercentBounds | src/app/dashboard/page.tsx:40-41 | a percentage of a part lies in 0..100, and a larger part never gets a smaller percentage |
| DashboardStats.ComputeStats | src/app/dashboard/page.tsx:33-54 | the totals are the list lengths; online counts the devices whose status is `online` or `playing`, and playing, offline and unconfigured count exact status matches; both percentages are `Percent` of their count over all devices; hence playing ≤ online ≤ total, the status counts add up to at most the total, and 0 ≤ playing % ≤ online % ≤ 100, both 0 without devices |
| DashboardStats.Positive | src/app/dashboard/page.tsx:62 | the filter keeps exactly the slices with a positive value |
| DashboardStats.StatusSlices | src/app/dashboard/page.tsx:57-62 | the slices are exactly the candidates Playing, Online-minus-playing, Offline and Unconfigured that have a positive value, at most four |
| DashboardStats.PositiveAppend | src/app/dashboard/page.tsx:62 | the filter distributes over concatenation, so the slices keep the candidates' order |
| DashboardStats.PositiveKeepsSum | src/app/dashboard/page.tsx:62 | dropping the zero slices does not change the total |
| DashboardStats.PieSum | src/app/dashboard/page.tsx:57-62 | the pie shows each online, offline and unconfigured device once: "Online" is online minus playing |
| DashboardStats.PieAddsUp | src/app/dashboard/page.tsx:57-62 | the pie of the dashboard's own figures adds up to the devices that are online or playing, offline, or unconfigured, never more than all devices |
| DashboardStats.FindGroup | src/app/dashboard/page.tsx:82 | `find` gives the first group with that id, or none when no group has it |
| DashboardStats.BarOf | src/app/dashboard/page.tsx:81-83 | a device counts only with a truthy `groupId`, under the name of its group, or `Unknown` when the group is missing or has no name |
| DashboardStats.TallyBars | src/app/dashboard/page.tsx:78-86 | the accumulated record has one entry per name that occurs, with the number of devices counted under it (groups sharing a name are merged) |
| DashboardStats.FirstLargest | src/app/dashboard/page.tsx:90 | a selection round finds the first bar not yet taken with the largest count, or reports that none is left |
| DashboardStats.SelectStep | src/app/dashboard/page.tsx:90-91 | taking that bar keeps the selected bars descending, distinct, and none smaller than a bar left behind |
| DashboardStats.TopBars | src/app/dashboard/page.tsx:88-91 | at most five bars, all from the tally, distinct and by descending count; a bar is left out only when five bars at least as large are shown |
| DashboardStats.DevicesPerGroup | src/app/dashboard/page.tsx:77-92 | the table shows at most five names, each with its true device count, in descending order; any name left out counts no more than each of the five shown |
| DashboardStats.BarsWithinDevices | src/app/dashboard/page.tsx:80-86 | the counts of distinct names add up to at most the number of devices |
| LogsPage.Keep | src/app/dashboard/logs/page.tsx:88 | `filter` never lengthens the list |
| LogsPage.Filtered | src/app/dashboard/logs/page.tsx:87-99 | `filteredLogs` is the list filtered by the conjunction of the search, the type and the severity conditions |
| LogsPage.KeepMembers | src/app/dashboard/logs/page.tsx:88-98 | an entry is listed exactly when it is in the logs and passes |
| LogsPage.KeepAppend | src/app/dashboard/logs/page.tsx:88 | filtering keeps the original order: the filter of a concatenation is the concatenation of the filters |
| LogsPage.KeepCounts | src/app/dashboard/logs/page.tsx:88 | a passing entry is listed as often as it occurs, and a failing one never |
| LogsPage.NoFilterKeepsAll | src/app/dashboard/logs/page.tsx:89-95 | an empty query with both choices at `all` lists every entry |
| LogsPage.SearchIgnoresCase | src/app/dashboard/logs/page.tsx:89-92 | the search gives the same answer for a query and its lower-case form |
| LogsPage.ChoiceNarrows | src/app/dashboard/logs/page.tsx:94-95 | choosing one type lists only entries of that type, all of which `all` lists too |
| LogsPage.SeverityBadge | src/app/dashboard/logs/page.tsx:101-117 | each severity has its badge, with a severity icon |
| LogsPage.TypeIcon | src/app/dashboard/logs/page.tsx:119-128 | each type has its icon, from the four type icons |
| LogsPage.LookupsDistinguish | src/app/dashboard/logs/page.tsx:101-128 | different severities get different badges and icons, and different types different icons |
| UsersPage.CreatedDoc | src/app/dashboard/users/page.tsx:62-66 | the created user has the typed name, the address lower-cased and trimmed, and `deviceId` only when one was chosen |
| UsersPage.UserForm.HandleSubmit | src/app/dashboard/users/page.tsx:53-75 | an empty name or e-mail creates nothing and alerts "Fyll i namn och email"; a successful create stores `CreatedDoc`, clears and hides the form; a failed create leaves everything as typed and alerts the failure |
| UsersPage.UserForm.HandleDelete | src/app/dashboard/users/page.tsx:77-87 | only a confirmed delete removes the user, from both locations |
| UsersPage.CreatedUserLogsIn | src/app/dashboard/users/page.tsx:64 | a created user can log in at the shop with any spelling of the address that normalises the same, and with the stored address |
| UsersPage.BlankEmailStoredEmpty | src/app/dashboard/users/page.tsx:56-64 | the guard tests the address as typed: an address of blanks passes it and is stored empty |
| UsersPage.AssignedDevice | src/app/dashboard/users/page.tsx:200 | the first listed device whose id is the user's `deviceId`; none exactly when the user has no `deviceId` or no listed device has it |
| UsersPage.AssignedCell | src/app/dashboard/users/page.tsx:216-223 | the column shows the assigned device's name and IP address, or "No device" |
| UsersPage.AssignedIsStored | src/app/dashboard/users/page.tsx:200-223 | over the device feed the page subscribes to (`devicesApi.subscribe`), the column shows the stored device exactly when the `deviceId` names one that reports `lastSeen`; a deleted device, or one that never reported, shows "No device" |
| GroupsPage.StoragePath | src/app/dashboard/groups/page.tsx:48-49 | an upload's path lies in `music/` and ends with the file's own name |
| GroupsPage.StoragePathInjective | src/app/dashboard/groups/page.tsx:48-49 | two uploads share a path only for the same time and the same name |
| GroupsPage.Paths | src/app/dashboard/groups/page.tsx:46-49 | the paths of the selected files, in selection order |
| GroupsPage.UploadedUrls | src/app/dashboard/groups/page.tsx:60-62 | the download URLs, one per file, in upload order |
| GroupsPage.FirstFailure | src/app/dashboard/groups/page.tsx:53-64 | the first upload that fails, by an upload error or a download-URL error; all before it succeeded |
| GroupsPage.GroupForm.HandleFileUpload | src/app/dashboard/groups/page.tsx:37-82 | no files is a no-op; when all uploads succeed, the URLs are appended after the existing files in upload order, with the count alert, and `uploading` is cleared; when one fails, the uploads stop there and the list is unchanged: an upload error is alerted and clears `uploading`, while a rejected `getDownloadURL` (in the un-awaited completion callback) leaves the handler waiting with no alert and `uploading` still set |
| GroupsPage.Without | src/app/dashboard/groups/page.tsx:87 | the kept entries are exactly the old ones other than the removed URL |
| GroupsPage.WithoutAppend | src/app/dashboard/groups/page.tsx:87 | removal keeps the order of the others |
| GroupsPage.WithoutCounts | src/app/dashboard/groups/page.tsx:87 | every copy of the URL goes, and every other entry keeps its multiplicity |
| GroupsPage.WithoutAbsent | src/app/dashboard/groups/page.tsx:87 | removing a URL that is not listed changes nothing |
| GroupsPage.RemoveUndoesAdd | src/app/dashboard/groups/page.tsx:69-89 | removing a URL just appended restores the list |
| GroupsPage.GroupForm.RemoveFile | src/app/dashboard/groups/page.tsx:84-89 | the file list becomes `Without` of the old one; nothing else changes |
| GroupsPage.GroupForm.HandleSubmit | src/app/dashboard/groups/page.tsx:91-103 | a successful create stores the form as a new group, then clears and hides the form; a failed one leaves the store and the form as they were |
| GroupsPage.LastSegment | src/app/dashboard/groups/page.tsx:201 | `split('/').pop()`: the longest slash-free suffix, which follows a slash unless it is the whole URL |
| GroupsPage.BeforeQuery | src/app/dashboard/groups/page.tsx:201 | `split('?')[0]`: the longest question-mark-free prefix, which a `?` ends unless it is the whole string |
| GroupsPage.LastSegmentAfterSlash | src/app/dashboard/groups/page.tsx:201 | after the last slash comes exactly the last segment |
| GroupsPage.BeforeQueryOf | src/app/dashboard/groups/page.tsx:201 | before the first `?` comes exactly the part before the query |
| GroupsPage.LabelOfDownloadUrl | src/app/dashboard/groups/page.tsx:201 | a URL ending in an encoded object path and a query is labelled with the decoded path, folder included |
| GroupsPage.MalformedEscapeFails | src/app/dashboard/groups/page.tsx:201 | a `%` that starts no escape makes the label throw |
| GroupsPage.StreamLabel | src/app/dashboard/groups/page.tsx:244 | a card shows its `streamUrl`, or "Lokala filer" when that is falsy |
| GroupsPage.FilesBadge | src/app/dashboard/groups/page.tsx:246-250 | the file count shows exactly when the group has a non-empty file list, and is that list's length |
| UriComponent.EscapeAt | src/app/dashboard/groups/page.tsx:201 | a `%` followed by two hex digits is read as the byte they spell; anything else is not an escape |
| UriComponent.Encode | src/app/dashboard/groups/page.tsx:201 | the encoder partner: its output is encoded and has no `/`, `?` or `#` |
| UriComponent.DecodeOneEncoded | src/app/dashboard/groups/page.tsx:201 | decoding reads back the one, two, three or four UTF-8 escapes of any character, and nothing beyond them |
| UriComponent.DecodeTwo | src/app/dashboard/groups/page.tsx:201 | two escapes of a two-byte sequence decode to their code point |
| UriComponent.DecodeThree | src/app/dashboard/groups/page.tsx:201 | three escapes of a three-byte sequence that is not overlong and not a surrogate decode to their code point |
| UriComponent.DecodeFour | src/app/dashboard/groups/page.tsx:201 | four escapes of a four-byte sequence up to U+10FFFF decode to their code point |
| UriComponent.DecodeEncode | src/app/dashboard/groups/page.tsx:201 | decoding an encoded string always succeeds and gives the string back |
| DevicesPage.StatusBadge | src/app/dashboard/devices/page.tsx:35-44 | online, playing and paused have their own badge; any other status, `unconfigured` and a missing one included, shows as offline |
| DevicesPage.BadgesDistinct | src/app/dashboard/devices/page.tsx:36-41 | the four badges have four different texts |
| DevicesPage.OfflineBadgesCover | src/app/dashboard/devices/page.tsx:35-44 | the list shows at least as many offline badges as the dashboard counts offline and unconfigured devices |
| DevicesPage.LastSeenText | src/app/dashboard/devices/page.tsx:46-51 | a missing `lastSeen` is falsy and shows "Never"; any stored Timestamp, the epoch included, is formatted with its time |
| DevicesPage.NeverSeenIsEpoch | src/app/dashboard/devices/page.tsx:47 | a device shown as "Never" is one the cleanup treats as seen at the epoch; a device the cleanup puts at the epoch but the list formats has a Timestamp at the epoch |
| DevicesPage.EpochTimestampIsFormatted | src/app/dashboard/devices/page.tsx:47-51 | a Timestamp at the epoch is formatted by the list while the cleanup counts it as the epoch, so the two views part there |
| DevicesPage.IpText | src/app/dashboard/devices/page.tsx:118 | the IP column shows the address, or "N/A" when it is falsy |
| DevicesPage.SystemLines | src/app/dashboard/devices/page.tsx:121-131 | the CPU, memory and disk lines appear, in that order, exactly when their metric is defined, each with its value |
| DevicesPage.SystemLinesExtremes | src/app/dashboard/devices/page.tsx:121-131 | no metrics give an empty column, and all three give the three lines |
| Text.Lower | src/app/store/page.tsx:32 | `toLowerCase` keeps the length and lowers each character |
| Text.Trim | src/app/store/page.tsx:32 | `trim` gives a slice of the string that neither starts nor ends with whitespace |
| Text.TrimCutsWhitespace | src/app/store/page.tsx:32 | everything `trim` cuts before and after the slice it keeps is whitespace |
| Text.NormalizeEmail | src/app/store/page.tsx:32 | the normal form has no capitals and no surrounding whitespace |
| Text.NormalizeKeepsSlice | src/app/store/page.tsx:32 | the normal form is the lower-cased form of a slice of the input, starting where `trim` stops cutting |
| Text.NormalizeCutsWhitespace | src/app/store/page.tsx:32 | what normalising cuts before and after that slice is whitespace in the input as typed |
| Text.NormalizeIdempotent | src/app/dashboard/users/page.tsx:64 | normalising twice is normalising once |
| Text.LowerOfLowerCase | src/app/dashboard/logs/page.tsx:90 | lower-casing a lower-case string changes nothing |
| Text.TrimOfTrimmed | src/app/store/page.tsx:32 | trimming a trimmed string changes nothing |
| Text.IncludesIff | src/app/dashboard/logs/page.tsx:90-92 | `includes` holds exactly when some position starts a copy of the needle |
| Text.DecimalString | src/app/dashboard/groups/page.tsx:48 | `${n}` is a non-empty string of decimal digits with no leading zero |
| Text.DecimalRoundTrip | src/app/dashboard/groups/page.tsx:48 | reading the digits back gives the number |
| Types.OrElse | src/app/dashboard/devices/page.tsx:118 | `x \|\| fallback` for a string: the value when truthy, the fallback otherwise |
| Types.NonEmpty | src/scripts/sync-group-counts.ts:30 | a string field counts only when it is truthy |
| Types.NonZero | src/services/firebase-api.ts:178 | a number counts only when it is truthy (not 0) |

## Left out

- Firestore and Storage SDK mechanics are abstracted to the store's maps:
  - snapshot listeners and their timing;
  - `serverTimestamp` (the `now` parameter) and `deleteField` (a cleared field);
  - the ids `addDoc` generates;
  - Storage uploads and download URLs (the per-file `results` parameter).
  A write fails only where the model says so: an update of a missing document, or a `writeFails` parameter.
- FirebaseApi.MergedUsers: it is the list one delivery gives. Which events trigger a delivery is not modelled: only config-location changes do, and a legacy change is seen only at the next config change.
- FirebaseApi.DeviceFeedHeadIsLatest and FirebaseApi.GroupFeedHeadIsFirst: the ordered feeds are described by predicates, not computed. Firestore's tie order by document id is not modelled. Names are compared by code point, which agrees with Firestore's UTF-8 byte order.
- FirebaseApi.Store.UpdateUser: any failure of the config update triggers the fallback. The model takes "the document is missing" as the only failure; permission and network errors are not modelled.
- CleanupDevices.SeenAt: times are whole milliseconds, as `getTime()` gives them. A `lastSeen` stored as something other than a Firestore Timestamp has no `toDate` and counts as the epoch. The model assumes every stored `lastSeen` is a Timestamp.
- DashboardStats.TopBars: the sort is modelled as five rounds that each take the first largest remaining bar. Ties follow the tally's insertion order. `Object.entries` lists integer-like group names first, ascending, which the model does not reproduce.
- DashboardStats.Percent: `Math.round` of a floating-point quotient is modelled as exact half-up rounding of the rational 100·k/n. Floating-point error near a half is not modelled.
- The activity chart is left out: it draws from `Math.random`. So is the hard-coded recent-activity list.
- The log page's data is a parameter, not its mock list. The heading count `filteredLogs.length` is the length of `LogsPage.Filtered` and has no member of its own.
- Text.Lower: only ASCII and the Latin-1 capitals are lowered. `toLowerCase` also folds the rest of Unicode, which the model leaves unchanged.
- DashboardStats.TallyBars: the page tallies into a plain object `{}`. A group named after an `Object.prototype` member reads the inherited member: for "constructor" or "toString" the count becomes a string concatenation, and for "__proto__" the assignment is ignored and the bar never appears. The model counts such names like any other, so DashboardStats.DevicesPerGroup describes the table only for group names that are not `Object.prototype` members.
- StoreDashboard.Panel.OnDeviceSnapshot: the device is `{ id: snapshot.id, ...snapshot.data() }`, so a stored field named `id` would override the document id. The device feed, the group feed and both user reads of `src/services/firebase-api.ts` (lines 24-27, 50-53, 83-86 and 91-94) build their records the same way. The model's device, group and user documents carry only their document id, so this override is not modelled anywhere.
- DevicesPage.StatusBadge: a status that names an `Object.prototype` member (such as `toString`) finds that member instead of the fallback, and draws a badge without colour or text. The model shows such a status as offline.
- DevicesPage.LastSeenText: date-fns formatting and the "Invalid date" branch are not modelled; a formatted cell carries the raw time. As for CleanupDevices.SeenAt, every stored `lastSeen` is taken to be a Timestamp: a numeric `lastSeen` of 0 would be falsy and show "Never", and a numeric one would be formatted by the list while the cleanup counts it as the epoch.
- DevicesPage.SystemLines: `toFixed(1)` rounding is not modelled; metrics are integers.
- GroupsPage.GroupForm.HandleFileUpload:
  - upload progress (a float) is not modelled;
  - `Date.now()` is read once per file, given as `times`;
  - files already uploaded before a failure stay in Storage; the method returns every path it wrote, so that is visible but not cleaned up.
- StoreDashboard.Panel.VolumeChange: it requires a level in 0..100, the slider's range. Values from other callers are not modelled.
- React state plumbing is not modelled: loading flags, `showForm` toggles outside the handlers, re-renders. The last `alert` is a field.
- HTML `required` attributes on the forms are not modelled; the model follows each handler's own guard.
- Concurrent writers and the interleaving of awaited calls are not modelled; every handler runs to completion on its own, except an upload batch whose download URL is rejected, which never completes.
- `src/services/api.ts` (an HTTP client), the hooks under `src/hooks`, `src/scripts/list-devices.ts`, the settings page, the layout, the sidebar, the UI components, `AuthContext` and the Firebase configuration are not part of this model: they only display, configure or relay.
