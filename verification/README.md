# Elium: verified model

A model in Dafny 4.11 of the parts of Elium whose guarantees hold over whole runs, and proofs of those
guarantees. `dafny verify dfyconfig.toml` checks the whole project.

State that the server or the launcher changes step by step appears twice: as a class whose methods change
fields in the order of the source (`DriveStore.Store`, `RelayServer.Relay`, `AuditLog.Log`,
`Launcher.Updater`, `Download.Files`, `Housekeeping.Sweeper`, `SecondFactor.User`,
`Sessions.SessionTable`, `SseScanner.Scanner`,
`RotationProtocol.Node`), and as a step function on values. Each method ensures
that the state it leaves is the one the step function gives, and the theorems are about runs of steps.

| file | what it models |
|---|---|
| `Forest`, `Access`, `Moves` | the tree of nodes, the recursive queries over it, node permissions and what a move does to them |
| `KeyGraph`, `DriveModel`, `DriveInvariant`, `DriveStore`, `Revocation`, `DriveEffects` | key epochs, the crypto-ACL, group keys, rotations; who can derive which key from everything ever stored; what each request changes and leaves alone |
| `RotationProtocol` | the single slot for the previous key and the re-encryption of versions by interleaving clients |
| `Preconditions`, `Headers` | the version and epoch a content write must name |
| `Uploads`, `UploadSafety`, `UploadBytes`, `Housekeeping` | concurrent uploads, quota, version chain, blobs, purge and retention |
| `RelayModel`, `RelayDelivery`, `RelayRooms`, `RelayServer` | rooms, connection counters, the update log, broadcast, catch-up, compaction |
| `Json`, `Canonical`, `HashChain`, `AuditChain`, `AuditLog` | canonical JSON, the entry hash, the chained log and its verifier |
| `Decimal`, `VersionOrder`, `Commits`, `NextVersion` | the order of versions, what commit messages ask for, and the next version to publish |
| `Download`, `CrashGuard`, `Launcher` | the resumable download and the crash-loop guard of the updater |
| `SecondFactor`, `Base32`, `Sessions`, `SseScanner`, `Paging` | lockout and single use of codes, Base32 on 32 bits, refresh tokens, the stream scanner, keyset pages |

Conventions. A transaction, an SQL statement or the part of a handler between two awaits is one step.
Cryptography is symbolic: an envelope gives its secret to whoever holds the key it was made under, and a
hash is a function. The Drive and the uploads are modelled in strict mode, where a writer must name the
version and the epoch it opened. Drive clients are honest: an envelope is what its fields say. The relay
theorems on content rest on the client protocol of a compaction: the client read the log from the start,
its snapshot is what it could decrypt, and it names no row after the first it could not. Durability and
the counters need no such thing.

Where a promise of the source does not hold for all inputs, the exact condition is proved:

- The folder listing cuts the creation time in its cursor to the millisecond, while the database keeps
  microseconds. Following the cursors gives the listing exactly once if and only if every row that ends
  a full page was created on a whole millisecond (`Paging.ListingExactIff`); otherwise rows repeat, none
  is skipped (`Paging.ListingSkipsNothing`), and pages of one row never end (`Paging.SingleRowPagesLoop`).
- A compaction leaves every document unchanged if and only if its snapshot adds nothing and brings back
  what only the replaced rows held (`RelayDelivery.CompactionPreservesMeaning`); the server cannot check it.
- Canonical metadata is a fixed point except for a bare null, which only a bare NaN, infinity or invalid
  date gives (`Canonical.CanonIdempotent`); its hash is the same all the same.
- A replayed refresh token revokes its session if and only if it is one of the last twenty replaced
  (`Sessions.ReplayRevokesIff`).
- A move takes permissions, not keys. Afterwards the moved subtree grants exactly what its own direct
  rows and the new parent grant (`Moves.MovedGrants`); someone who loses a permission so still derives the
  key of everything written there until the node is rotated (`Moves.LostGrantStillReads`). Secrecy is
  stated for removal from a group and for its deletion.
- A rotation leaves every version readable, with the current key or the one in the slot, if and only if no
  version is behind and the slot is filled (`RotationProtocol.RotationReadableIff`); clients see to both,
  so nothing is lost wherever they stop (`RotationProtocol.AlwaysReadable`), unless a re-encrypted blob
  arrives after a further rotation: the request does not name its epoch, the server accepts it and stamps
  it with the new one, and the next rotation makes it unreadable (`RotationProtocol.LateBlobIsLost`). The
  blob outlives that rotation if and only if its key was still current on arrival
  (`RotationProtocol.ReencryptionReadableIff`).
- While the server does not stop, the blobs left once uploads are over and deletions done are exactly those
  of the versions (`UploadBytes.StorageIsExact`); an upload under way when it stops leaves its blob behind
  (`UploadBytes.CrashLeavesOrphan`).
- An acknowledged update stays in the document if and only if its node is not purged, or it held nothing
  (`RelayDelivery.AckedByProtocol`).

## Model

| member | source | states |
|---|---|---|
| Forest.DescendantClosure | server/src/lib/subtree-blobs.ts:4-17 | The downward recursive query ends on any parent graph, cyclic or not, and returns exactly the nodes whose chain of parents meets a top |
| Forest.AncestorClosure | server/src/rbac/engine.ts:126-145 | The upward recursive query ends on any parent graph and returns exactly the ancestors, the node included |
| Forest.MoveKeepsForestIff | server/src/routes/nodes.ts:345-361 | The loop check of a move accepts exactly the moves after which the parent graph is still an acyclic forest |
| Forest.PathInsideMove | server/src/routes/nodes.ts:379-410 | After a move, what is above a node of the moved subtree is what was above it within the subtree, and the new parent with all above it |
| Forest.MoveKeepsSubtree | server/src/routes/nodes.ts:397-406 | A move takes along exactly the nodes that were below |
| Forest.CreateKeepsForest | server/src/routes/nodes.ts:156-212 | Creating a node under an existing parent, or at the root, keeps the forest |
| Forest.CascadeKeepsForest | server/src/routes/nodes.ts:480-498 | The cascade of a purge removes whole subtrees and leaves a forest |
| Access.ResolveNodeAccess | server/src/rbac/engine.ts:95-171 | Null exactly for a missing node; nothing for a non-member; otherwise a permission is held exactly when a row on the node or a folder above it grants it to the user or a group of theirs, or the user owns the node or the organisation and it is an owner permission |
| Access.GrantsCascade | server/src/rbac/engine.ts:126-147 | A permission the ACL grants on a folder it grants on everything below it |
| Access.GrantsDecompose | server/src/rbac/engine.ts:126-147 | What the ACL grants on a node is what its own rows grant plus what it grants on the parent, and nothing else |
| Access.SameOrgBelow | server/src/routes/nodes.ts:156-167 | Every tree lies in one organisation |
| KeyGraph.DerivesIff | server/src/routes/nodes.ts:546-605 | What a person can derive through any chain of stored envelopes is exactly what was given to them, to a group or organisation key they were given, or lies behind it through the previous-key links of rotations |
| Preconditions.AssertContentBase | server/src/lib/content-preconditions.ts:64-76 | A write passes exactly when no rotation is required and it names the current version and epoch |
| Headers.DownloadRoundTrip | server/src/routes/nodes.ts:735-750 | A writer that sends back the headers of its download names exactly that version and epoch |
| Headers.AcceptedBase | server/src/lib/content-preconditions.ts:35-62 | An accepted base has a positive safe epoch and a lower-case identifier or none; a base is guessed exactly when compatibility is on and both headers are absent |
| DriveModel.ExactCoverageIff | server/src/lib/group-rotation.ts:19-24 | The three size tests accept exactly the duplicate-free listings of the expected rows |
| DriveInvariant.FreshnessGate | server/src/lib/key-share-policy.ts:17-60 | Shares that pass name only principals of the organisation, under the key each holds now, none awaiting a rotation |
| DriveInvariant.StepKeeps | server/src/routes/nodes.ts:546-605 | Every request keeps: each ACL row opens the current node key with the current key of its principal, each membership row the current group key, one organisation per acyclic tree, each row's role one of the organisation's, no envelope for a key that does not exist yet, and only current members were ever given the key of a group in good standing |
| DriveInvariant.RunKeeps | server/src/routes/groups.ts:237-382 | The same over every run of honest requests |
| DriveInvariant.NewDriveRuns | server/src/routes/groups.ts:134-382 | From a Drive with no node and no group yet, it holds after every run |
| DriveInvariant.CreateGroupKeeps | server/src/routes/groups.ts:134-190 | Creating a group keeps the invariant |
| DriveInvariant.AddMemberKeeps | server/src/routes/groups.ts:237-288 | Adding a member keeps the invariant |
| DriveInvariant.RotateGroupKeeps | server/src/lib/group-rotation.ts:39-104 | Rotating a group key, with or without a removal, keeps the invariant: no row is left under the old key |
| DriveInvariant.DeleteGroupKeeps | server/src/routes/groups.ts:351-382 | Deleting a group keeps the invariant |
| DriveInvariant.CreateNodeKeeps | server/src/routes/nodes.ts:156-212 | Creating a node keeps the invariant |
| DriveInvariant.RotateNodeKeeps | server/src/routes/nodes.ts:521-621 | Rotating a node key keeps the invariant |
| DriveInvariant.MoveNodeKeeps | server/src/routes/nodes.ts:332-417 | Moving a node keeps the invariant |
| DriveInvariant.PurgeKeeps | server/src/routes/nodes.ts:480-498 | Purging a subtree keeps the invariant |
| DriveStore.Store.AssertFreshPrincipalKeys | server/src/lib/key-share-policy.ts:17-60 | The loop over the shares returns the first refusal of the specification, or none |
| DriveStore.Store.CreateGroup | server/src/routes/groups.ts:134-190 | Leaves exactly the tables of the group-creation step, or refuses and changes nothing |
| DriveStore.Store.AddMember | server/src/routes/groups.ts:237-288 | Leaves exactly the tables of the add-member step, with its refusals |
| DriveStore.Store.MarkRequiredNodeRotations | server/src/lib/group-rotation.ts:26-36 | Flags exactly the named nodes and everything below them, and nothing else |
| DriveStore.Store.ApplyGroupKeyRotation | server/src/lib/group-rotation.ts:39-104 | Replaces the key pair, every remaining membership row and every shared ACL row, flags the exposed subtrees, or refuses and changes nothing |
| DriveStore.Store.DeleteGroup | server/src/routes/groups.ts:351-382 | Removes the group with its rows and flags every subtree it was shared |
| DriveStore.Store.ValidateRoles | server/src/routes/nodes.ts:133-136 | True exactly when every share names a role of the organisation or of all |
| DriveStore.Store.CreateNode | server/src/routes/nodes.ts:156-212 | Leaves exactly the tables of the node-creation step, with its refusals, role validation included |
| DriveStore.Store.RotateNode | server/src/routes/nodes.ts:521-621 | Replaces the whole ACL of the node, bumps its epoch and clears its flag, or refuses, role validation included, and changes nothing |
| DriveStore.Store.MoveNode | server/src/routes/nodes.ts:332-417 | Leaves exactly the tables of the move step: new parent, inherited rows of the subtree gone |
| DriveStore.Store.PutContent | server/src/routes/nodes.ts:667-718 | Records the write under the current epoch exactly when the base is current |
| DriveStore.Store.RelayUpdate | server/src/collab/relay.ts:571-583 | Persists an update exactly when the peer's epoch is current and no rotation is required |
| DriveStore.Store.Trash | server/src/routes/nodes.ts:420-439 | Marks the node, and only it |
| DriveStore.Store.Restore | server/src/routes/nodes.ts:441-450 | Takes the mark away |
| DriveStore.Store.Purge | server/src/routes/nodes.ts:480-498 | Removes exactly the subtree with its rows; refuses a node that is not in the trash |
| DriveEffects.RotationKeepsContent | server/src/routes/nodes.ts:586-600 | After an accepted rotation that keeps the previous key, everyone who can derive the new key of the node can derive the one before it |
| DriveEffects.RotationWithoutLink | server/src/routes/nodes.ts:586-600 | A rotation that does not keep it gives the previous key to nobody and takes it from nobody: a person derives it afterwards exactly when they did before |
| DriveEffects.ReadersReadEverything | server/src/routes/nodes.ts:546-600 | Over every run in which rotations keep the previous key, whoever derives the current key of a node derives, from all envelopes ever stored, every key it ever had |
| DriveEffects.OwnersRead | server/src/routes/nodes.ts:521-605 | No owner is locked out: over every run the owner of each node can derive its current key, and all earlier ones when rotations keep the previous key |
| DriveEffects.NodeCreated | server/src/routes/nodes.ts:156-212 | A created node has the organisation, parent and owner of the request, no version and no flag; all other nodes, groups, members and writes are untouched |
| DriveEffects.NodeWrapped | server/src/routes/nodes.ts:156-212 | Its ACL rows are exactly the shares of the request with their roles, and no other row changes |
| DriveEffects.NodeRotated | server/src/routes/nodes.ts:577-605 | A rotation raises the epoch by one, clears the flag and keeps every other column of the node and all other nodes |
| DriveEffects.NodeRewrapped | server/src/routes/nodes.ts:564-585 | And its ACL rows are then exactly the shares of the request, those of other nodes being untouched |
| DriveEffects.OrganisationStaysIn | server/src/routes/nodes.ts:553-563 | A node shared with its organisation still is after any accepted rotation |
| DriveEffects.SecondRotationRefused | server/src/routes/nodes.ts:548-552 | Of two rotations that name the same epoch of a node, or the same key of a group, the second is refused |
| DriveEffects.WritableOnceRotated | server/src/lib/content-preconditions.ts:64-76 | Right after a rotation the node takes content and relayed updates under the new epoch, and under no other |
| DriveEffects.ContentPut | server/src/routes/nodes.ts:667-718 | An accepted write names the new version, is recorded once under the epoch it named, and changes neither key, ACL nor any other node |
| DriveEffects.SecondWriterRefused | server/src/lib/content-preconditions.ts:64-76 | Of two writers that opened the same version the second gets a conflict |
| DriveEffects.UpdateRelayed | server/src/collab/relay.ts:571-583 | An update is recorded exactly when the peer's epoch is current and no rotation is due, once, and changes no table |
| DriveEffects.TrashedAndRestored | server/src/routes/nodes.ts:420-450 | Trashing marks one node, restoring takes the mark away, and nothing else differs at either point |
| DriveEffects.NodeMoved | server/src/routes/nodes.ts:332-417 | A move changes the parent of one node, needs no rotation pending, and deletes exactly the inherited rows of what lay below it |
| DriveEffects.NodePurged | server/src/routes/nodes.ts:480-498 | A purge removes exactly the subtree and its rows, and forgets it as a source of inheritance elsewhere |
| DriveEffects.ManagersDecide | server/src/routes/groups.ts:247-265 | Members are added and group keys rotated only by an owner or a manager of that very group, and only people of the organisation are added |
| DriveEffects.MemberAdded | server/src/routes/groups.ts:267-279 | Exactly one membership row appears or changes, and the new member can derive the current group key |
| DriveEffects.GroupCreated | server/src/routes/groups.ts:134-190 | The new group has the key and exactly the members of the request, and nothing else changes |
| DriveEffects.GroupRotated | server/src/lib/group-rotation.ts:39-104 | The new key is that of the request, exactly the removed member is gone, managers, roles and inheritance are kept, other groups and rows untouched |
| DriveEffects.ExposedFlagged | server/src/lib/group-rotation.ts:26-36 | A rotation or deletion of a group flags exactly the nodes at or below those shared with it, beside those already flagged, and changes no other column |
| DriveEffects.GroupDeleted | server/src/routes/groups.ts:351-382 | Exactly the group, its memberships and its ACL rows are gone |
| DriveEffects.MembersStayInOrg | server/src/routes/groups.ts:142-154 | Over every run whoever is in a group is in its organisation |
| RotationProtocol.AlwaysReadable | web-studio/src/drive-cloud/rotate.ts:309-383 | Over every run of writes, rotations and re-encryptions by any number of clients, stopped anywhere, in which rotations follow the protocol and no blob arrives late, every version can be decrypted with the current key or the one in the slot |
| RotationProtocol.LevelUntilRotated | web-studio/src/drive-cloud/rotate.ts:309-327 | What a client checks before its rotation still holds when the rotation is accepted |
| RotationProtocol.RotationReadableIff | web-studio/src/drive-cloud/rotate.ts:309-327 | A rotation leaves everything readable exactly when no version is behind and, if there are any, the slot is filled |
| RotationProtocol.ReencryptionReadableIff | server/src/routes/versions.ts:115-155 | An accepted re-encryption is stamped with the node's epoch whatever its key was; the stamp is right, and the version outlives the next rotation, exactly when that key was still the current one |
| RotationProtocol.LateBlobIsLost | server/src/routes/versions.ts:115-155 | The promise fails for a late blob: a run of six steps, its rotations by the protocol, after which neither kept key opens the version |
| RotationProtocol.Node.Swap | server/src/routes/nodes.ts:548-600 | Accepts exactly the current epoch, moves to the next and overwrites the slot |
| RotationProtocol.Node.PutVersionContent | server/src/routes/versions.ts:105-162 | Accepts a blob exactly for a version stamped with an earlier epoch |
| RotationProtocol.Node.ReencryptAll | web-studio/src/drive-cloud/rotate.ts:221-252 | The loop re-encrypts exactly the versions behind that it can read and that do not fail, and reports none remaining exactly when none is behind |
| RotationProtocol.Node.RotateNode | web-studio/src/drive-cloud/rotate.ts:293-388 | Alone on the node, whatever requests fail: nothing becomes unreadable, a blocked rotation moves no epoch, and a complete one leaves every version under the new key |
| Revocation.AclReads | server/src/routes/nodes.ts:156-212 | Everyone an ACL row names can derive the current key of the node: rewraps lock nobody out |
| Revocation.RotationReaders | server/src/routes/nodes.ts:546-605 | The new key of a rotated node can be derived by exactly the people its shares name |
| Revocation.GroupKeyReaders | server/src/lib/group-rotation.ts:39-104 | The new key of a rotated group can be derived by exactly the remaining members |
| Revocation.RemovedMemberReadsNothingLater | server/src/routes/groups.ts:329-382 | After u leaves g, by removal or deletion, every version or relayed update written later on a node at or below one shared with g is under a strictly later epoch, and u cannot derive that epoch's key from all envelopes ever stored, over every run that never puts u back in the ACL |
| Moves.MovedGrants | server/src/routes/nodes.ts:379-410 | After a move a permission is granted in the moved subtree exactly by a direct grant made within the subtree, or by what the new parent grants: nothing inherited from the old place is left |
| Moves.MoveElsewhere | server/src/routes/nodes.ts:379-410 | Outside the moved subtree nobody gains or loses a permission |
| Moves.LostGrantStillReads | server/src/routes/nodes.ts:379-410 | Someone who held a permission through an inherited row, and whom neither a direct grant of the subtree nor the new parent grants it, loses it; and still derives the key of everything written on the node over any run until it is rotated |
| Uploads.MaxNoKeeps | server/src/lib/housekeeping.ts:235-253 | Dropping versions, but not the highest, leaves the next version number as it was |
| Uploads.SweepTakesOldest | server/src/lib/housekeeping.ts:235-253 | A sweep takes expired versions only, at most a batch, and leaves an expired one only behind a full batch of versions none of which is younger |
| UploadSafety.SweepSparesCurrent | server/src/lib/housekeeping.ts:235-253 | It never takes the current version of a node |
| UploadSafety.CollectedRefs | server/src/lib/subtree-blobs.ts:4-17 | The references a purge collects are exactly those of the versions it deletes |
| UploadSafety.DropKeepsBlobs | server/src/lib/housekeeping.ts:112-143 | Deleting rows and then their blobs touches no blob another row names |
| UploadSafety.CommitKeepsQuota | server/src/routes/nodes.ts:674-712 | A commit uses the room found under the organisation's lock, which nobody else holds, so the quota still holds |
| UploadBytes.CommitUses | server/src/routes/nodes.ts:700-712 | A commit adds one version and uses exactly the upload's size in the node's organisation, nothing in any other |
| UploadSafety.StepKeeps | server/src/routes/nodes.ts:648-718 | Every step of every upload, failure, purge, retention, deletion or crash keeps all the invariants below |
| UploadSafety.NoDanglingBlob | server/src/routes/nodes.ts:648-718 | After any run, stopped anywhere, every content reference of a node or version names a stored blob that no pending deletion targets |
| UploadSafety.QuotaHolds | server/src/routes/nodes.ts:674-712 | Whatever uploads interleave, the sum of version sizes of an organisation never exceeds its quota |
| UploadBytes.StreamedOnce | server/src/routes/nodes.ts:648-666 | Only the start of an upload streams, what it says, under a key never used before |
| UploadBytes.StreamedWithinQuota | server/src/routes/nodes.ts:674-712 | After any run each version says what was streamed into its blob, no two share one, and the bytes streamed into those an organisation keeps are within its quota |
| UploadBytes.StoredIff | server/src/routes/nodes.ts:648-718 | An undisturbed upload is stored, as the node's content under the next number and the node's epoch, exactly when its base is current, no rotation is due and it fits; otherwise no row changes and its blob is to be deleted |
| UploadBytes.StorageIsExact | server/src/lib/housekeeping.ts:57-62 | As long as the server does not stop, once uploads are over and doomed blobs deleted, the stored blobs are exactly those of the versions |
| UploadBytes.CrashLeavesOrphan | server/src/lib/housekeeping.ts:57-62 | An upload under way when the server stops leaves a blob no row names and nothing will delete |
| UploadBytes.PurgeDoes | server/src/routes/nodes.ts:480-498 | An accepted purge takes exactly the subtree and its versions and dooms exactly their blobs |
| UploadBytes.RetainDoes | server/src/lib/housekeeping.ts:235-253 | A sweep deletes exactly what it takes and dooms exactly those blobs, and takes every expired version when there are fewer than a batch |
| UploadBytes.AbortDoes | server/src/routes/nodes.ts:655-666 | An upload given up dooms its blob, frees its own locks only and changes no row |
| UploadSafety.VersionsFormOneChain | server/src/routes/nodes.ts:667-718 | The accepted writes of a node form one chain, each based on the one before, with strictly increasing numbers, none used twice, through purges and retention |
| UploadSafety.AcceptedNamedCurrent | server/src/routes/nodes.ts:667-718 | A write commits only if at that moment it names the current version and epoch and no rotation is required, although the check was made in an earlier step |
| Housekeeping.Sweeper.SubtreeBlobRefs | server/src/lib/subtree-blobs.ts:4-17 | Returns exactly the references of the nodes at or below the one given and of their versions |
| Housekeeping.Sweeper.PurgeNode | server/src/lib/housekeeping.ts:112-143 | Removes the subtree's rows, then every collected blob whose deletion does not fail, and no other |
| Housekeeping.Sweeper.PurgeOldVersions | server/src/lib/housekeeping.ts:235-253 | Picks the oldest expired non-current versions, removes their rows, then their blobs, and leaves the nodes |
| RelayModel.StepKeepsCounts | server/src/collab/relay.ts:440-449 | The counter of each user is the number of its admitted, undisposed sockets, whatever the order of opening, admission, close and error |
| RelayModel.StepKeepsRooms | server/src/collab/relay.ts:460-465 | Rooms are never empty and hold only admitted, undisposed sockets that asked for them |
| RelayModel.NoLeak | server/src/collab/relay.ts:84-105 | Once every socket has closed no counter and no room is left |
| RelayDelivery.LimitOverRuns | server/src/collab/relay.ts:443-449 | Over any run no user ever has more admitted sockets than the limit |
| RelayModel.LimitHolds | server/src/collab/relay.ts:443-449 | No step takes a user above the connection limit |
| RelayDelivery.CompactionPreservesMeaning | server/src/collab/relay.ts:660-674 | A compaction leaves every document unchanged exactly when its snapshot adds nothing and covers what only the replaced rows held; the merge of those rows does |
| RelayDelivery.StepKeepsDurable | server/src/collab/relay.ts:584-600 | Every update of a node that was not purged is at every later step still a row, or was covered by a compaction that reached its id |
| RelayDelivery.StepKeepsGone | server/src/db/migrations/0001_baseline.sql:214-221 | Nothing is left of a purged node's updates, and nothing of it comes back |
| RelayDelivery.StepCoversOne | server/src/collab/relay.ts:571-598 | Each step keeps: what a client concerned by an update has, plus what its next pages will bring, contains that update |
| RelayDelivery.AckedIsDurable | server/src/collab/relay.ts:584-600 | Over any continuation an acknowledged update stays a row or is covered by a compaction, unless its node is purged, when nothing of the node is left; with honest compactors it is in the document exactly as long as the node is not purged |
| RelayDelivery.ReadersAreHonest | web-studio/src/drive-cloud/rotate.ts:133-185 | A compaction asked by a client that read the log, with what it could decrypt as snapshot and no row named after the first it could not, holds all it replaces, whatever was persisted, compacted or purged since the reading |
| RelayDelivery.AckedByProtocol | server/src/collab/relay.ts:584-600 | So when all compactions are asked that way, an acknowledged update is in the document exactly as long as its node is not purged |
| RelayDelivery.JoinCoverageByProtocol | server/src/collab/relay.ts:571-598 | And a client in the room that paged to the end has every update broadcast for the node |
| RelayDelivery.JoinCoverage | server/src/collab/relay.ts:571-598 | A client in the room that paged the backlog to its end has every update broadcast for the node and every one it sent, under every interleaving of inserts, broadcasts, joins, pages, honest compactions, purges and departures |
| RelayDelivery.CountersExact | server/src/collab/relay.ts:622-636 | Over any run the counters are exact, and empty once all sockets have closed |
| RelayRooms.DeliveryReaches | server/src/collab/relay.ts:224-240 | A delivery adds exactly the update to what every other client of the room has, changes no other client, and acknowledges it |
| RelayRooms.KickEmptiesRoom | server/src/collab/relay.ts:209-219 | A kick drops the room of the node at once and changes nothing else |
| RelayRooms.KickedHearNothing | server/src/collab/relay.ts:209-219 | Over any run, a socket admitted before a kick gets nothing from any later delivery of an update of that node |
| RelayRooms.AdmitJoins | server/src/collab/relay.ts:440-465 | An open socket gets into the room it asked for, and no other, exactly when its user has fewer live sockets than the limit; nobody else moves |
| RelayRooms.GoneLeaves | server/src/collab/relay.ts:622-636 | A socket that closes is in no room any more, and nobody else leaves or joins one |
| RelayRooms.LiveHears | server/src/collab/relay.ts:224-240 | Over any run, who was let into a room hears every later delivery of others' updates until it closes or the room is kicked |
| RelayRooms.PagingEnds | server/src/collab/relay.ts:682-713 | With nothing else going on, paging ends after one page for every 5000 rows begun, and the client then has them all |
| RelayRooms.ReaderReads | web-studio/src/drive-cloud/rotate.ts:139-168 | A compacting client has exactly the rows it can decrypt and names the last row before the first it cannot |
| RelayRooms.NodesAreApart | server/src/collab/relay.ts:224-240 | Over any run a client has nothing but what was written to its own node, by updates or snapshots |
| RelayServer.Relay.Admit | server/src/collab/relay.ts:440-465 | Registers the socket and counts it exactly when it is still open and its user below the limit |
| RelayServer.Relay.Gone | server/src/collab/relay.ts:84-105 | The first close or error runs the cleanup of a registered socket; further ones do nothing |
| RelayServer.Relay.Cleanup | server/src/collab/relay.ts:622-636 | Leaves the room, drops it when empty, and gives exactly one connection back |
| RelayServer.Relay.KickRoomLocal | server/src/collab/relay.ts:209-221 | Tells exactly the peers of the room to close, drops the room and no other |
| RelayServer.Relay.Persist | server/src/collab/relay.ts:571-584 | Appends one row with a fresh id, heard by nobody yet; rejects the update when the node is gone |
| RelayServer.Relay.Broadcast | server/src/collab/relay.ts:224-240 | Reaches every peer of the room except the sender, and nobody else |
| RelayServer.Relay.Deliver | server/src/collab/relay.ts:585-598 | Adds the update to what every other client of the room has and to nothing else, then acknowledges it |
| RelayServer.Relay.Page | server/src/collab/relay.ts:682-713 | Serves the next rows after the cursor, at most a page, and says exactly whether more are left |
| RelayServer.Relay.Compact | server/src/collab/relay.ts:666-674 | In one step removes the rows up to the given id and adds the snapshot, whatever the epoch |
| RelayServer.Relay.ReadPage | web-studio/src/drive-cloud/rotate.ts:139-168 | The loop integrates what it can decrypt and stops the replaced prefix before the first row it cannot |
| RelayServer.Relay.Purge | server/src/db/migrations/0001_baseline.sql:214-221 | Deletes every update of the node |
| Json.EscapeRoundTrip | server/src/lib/audit-chain.ts:57-62 | A string escaped as in section 7 of RFC 8259, lone surrogates included, reads back as itself and leaves what follows |
| Json.ValuesSeparable | server/src/lib/audit-chain.ts:57-62 | Unique readability: no serialised value followed by a delimiter starts the text of another |
| Json.StableIff | server/src/lib/audit-chain.ts:57-62 | Two JSON values get the same text exactly when they are equal up to the order of object keys |
| Json.StringifyStringsInjective | server/src/lib/audit-chain.ts:76-89 | The array of strings that is hashed determines each of them |
| Canonical.CanonWellFormed | server/src/lib/audit-chain.ts:29-37 | The canonical form is a JSON value, whatever the JavaScript value |
| Canonical.CanonKeeps | server/src/lib/audit-chain.ts:29-37 | Of a serialisable object exactly the properties that have a JSON text remain, each with its own |
| Canonical.CanonIdempotent | server/src/lib/audit-chain.ts:29-37 | What is read back hashes as what was written; the form is a fixed point except for a bare null |
| Canonical.JsonRoundTrip | server/src/lib/audit-chain.ts:29-37 | A JSON value goes through unchanged |
| HashChain.AcceptedIff | server/src/lib/audit-chain.ts:157-206 | A table is accepted exactly when unchained rows come first and every later row was recomputed and names the root or the hash of the row before |
| HashChain.AcceptedCounts | server/src/lib/audit-chain.ts:157-217 | Of an accepted table the total and the number of chained rows are exact |
| HashChain.BrokenIsFirst | server/src/lib/audit-chain.ts:155-217 | Every row is counted; a broken chain names its first bad row and everything else is frozen there |
| HashChain.LastHashDetermines | server/src/lib/audit-chain.ts:157-206 | Chains that end in one hash agree on every hash before it, back to the start |
| AuditChain.EntryHashBinds | server/src/lib/audit-chain.ts:76-89 | An entry hash determines the previous hash and every field, up to null or "" on ids and key order in the metadata |
| AuditChain.EntryHashRespects | server/src/lib/audit-chain.ts:76-89 | And depends on nothing else |
| AuditChain.IdealExists | server/src/lib/audit-chain.ts:18-18 | The assumption on the hash, injective and never the root, is one some function meets |
| AuditChain.LegacySignature | server/src/lib/audit-chain.ts:48-54 | An old entry with an undefined fingerprint is stored without it and its variant is what had been hashed |
| AuditChain.LastHashDeterminesHistory | server/src/lib/audit-chain.ts:136-217 | Two accepted tables that end in one entry hash have the same number of chained rows, equal one by one as hashed, up to the named legacy variants |
| AuditChain.LastHashDeterminesExactly | server/src/lib/audit-chain.ts:136-217 | Without legacy acceptances the stored rows themselves are equal one by one |
| AuditChain.TamperEvident | server/src/lib/audit-chain.ts:136-217 | With an ideal hash, a table that verifies without legacy forms and ends in the entry hash of another such table has the same chained entries, field by field |
| AuditChain.NoLegacyIsDirect | server/src/lib/audit-chain.ts:189-198 | The legacy count is zero exactly when every chained row was hashed as it is stored |
| AuditLog.AppendKeeps | server/src/lib/audit.ts:25-62 | One append, of any organisation, keeps every organisation's chain accepted and adds no legacy acceptance |
| AuditLog.AnyInterleavingVerifies | server/src/lib/audit.ts:25-62 | So does any interleaving of appends, failed inserts included, whatever metadata is given |
| AuditLog.WrittenLogVerifies | server/src/lib/audit.ts:10-67 | A log written by audit() alone verifies for every organisation with no legacy acceptance, for every hash function |
| AuditLog.AppendRecords | server/src/lib/audit.ts:36-62 | A call that does not fail adds one row at the end with its own organisation, actor, action, resource and time, the longest prefix of the address of at most 64 units and metadata of the same meaning; it names the entry hash of the last row of its organisation, or the root, and is hashed as stored; earlier rows are untouched, and a failed call adds nothing |
| AuditLog.LogHoldsCalls | server/src/lib/audit.ts:10-67 | After any calls the log holds one row for each that did not fail, in order, each recording its call field by field |
| AuditLog.Log.Audit | server/src/lib/audit.ts:25-62 | Appends exactly the row of the specification, which records the call field by field, or nothing when the insert fails; earlier rows are untouched |
| AuditLog.Log.VerifyAuditChain | server/src/lib/audit-chain.ts:136-217 | The paged verifier returns the verdict of one pass, for every page size and every table |
| AuditLog.CheckHash | server/src/lib/audit-chain.ts:189-198 | Tries the stored metadata, then each legacy form, and says which matched |
| VersionOrder.VersionTuple | installer/changelog.py:93-115 | The loops compute the tuple of the specification for every string |
| VersionOrder.VersionKey | installer/changelog.py:118-139 | The nested loops compute the key of the specification for every string |
| VersionOrder.NewerIsStrictWeakOrder | installer/changelog.py:118-144 | `is_newer` is irreflexive and transitive, and two versions are incomparable exactly when their keys are equal |
| VersionOrder.NumericSuffix | installer/changelog.py:118-139 | Numeric suffixes of one label are compared as numbers |
| NextVersion.PrintRoundTrip | scripts/next_version.py:41-45 | Parsing a printed version gives it back |
| NextVersion.ParsedKey | scripts/next_version.py:41-45 | What the publisher parses the updater keys by the same numbers and suffix |
| NextVersion.PreBeforeFinal | installer/changelog.py:118-144 | Every prerelease comes before its final version |
| NextVersion.PreNumbersOrder | installer/changelog.py:118-144 | Prereleases of one label are ordered by their number |
| Commits.RequiredBump | scripts/next_version.py:71-77 | Returns a level some commit asks for and no commit exceeds, none exactly when all are noise |
| Commits.ConventionalLevel | scripts/next_version.py:48-68 | A conventional message is classified by its bang, by a line of its body announcing a breaking change, and otherwise by its type alone, whatever its scope and subject |
| NextVersion.NextIsNewer | scripts/next_version.py:80-123 | Whatever the commits, tags and label, the version printed is strictly newer than the current one |
| NextVersion.NextPreIsFresh | scripts/next_version.py:88-123 | A prerelease that is printed is none of the existing tags, with or without their v |
| NextVersion.BumpIsLeast | scripts/next_version.py:80-85 | The bumped core is the lowest that meets the level asked for |
| NextVersion.NextNumberExact | scripts/next_version.py:116-123 | The number of a prerelease is one more than the highest taken by a tag of the label or by the current one, 1 when none is |
| NextVersion.NextIsLeast | scripts/next_version.py:88-113 | What is printed reads back as what was asked for: a promotion keeps the core, a further prerelease of a label changes only its number, everything else has the lowest core for the level; for any label the version grammar admits |
| Download.Files.Stream | installer/updater.py:860-878 | Whatever arrives, the running digest has been fed exactly the bytes of the .part file, and the cap holds |
| Download.Files.TryOnce | installer/updater.py:829-912 | One attempt leaves the .part file its outcome says, for every answer of the server |
| Download.Files.DownloadVerified | installer/updater.py:802-920 | True only with the destination holding bytes of the signed digest within the cap; False leaves it untouched |
| Download.HonestServerSucceeds | installer/updater.py:802-920 | With a server that has the content and is cut off at most once, the download succeeds whatever an earlier one left in the .part file |
| Download.CutKeepsBytes | installer/updater.py:886-908 | An attempt cut off transiently keeps every byte it had and got, also when it is the last |
| Download.TwoCutsResumed | installer/updater.py:822-908 | After each cut the next attempt asks from exactly there and from nowhere else, and the third brings the rest |
| Download.ThirdCutKept | installer/updater.py:822-908 | A third cut fails the download with everything received kept, and the next download goes on from that byte |
| Download.Files.FetchFromBundle | installer/updater.py:1561-1598 | The offline fetcher meets the same contract, and says exactly when it succeeds |
| CrashGuard.LaunchedIsVerified | installer/updater.py:1324-1372 | From any state of the files, what is launched verifies against its signed manifest, is strictly newer than the launcher that runs it and is not quarantined |
| CrashGuard.ChainEnds | installer/updater.py:1484-1526 | Over any run with no new install, each start asked by the launcher started last, at most as many launches happen as there were exes, no version is launched twice, and none is the launcher it began with |
| CrashGuard.HandoffAddsNone | installer/updater.py:1484-1506 | A handoff, its verifications, fallbacks and second chance included, adds no exe |
| CrashGuard.LaunchedIsInstalledOrOk | installer/updater.py:1324-1372 | Every version launched is the last one installed or one recorded as well started before |
| CrashGuard.FailedLaunchesBounded | installer/updater.py:1396-1408 | Without a new install at most three launches in all are of a version never recorded as well started; every other launch is of one that was |
| CrashGuard.ThenQuarantined | installer/updater.py:1381-1408 | After three counted starts the next one quarantines the version, deletes its exe and starts the last good one exactly when that verifies, is newer and is not quarantined |
| CrashGuard.PendingIsLaunched | installer/updater.py:1396-1408 | A pending version that never started well is launched exactly when fewer than three of its starts were counted since its install; such a start is counted and changes nothing else |
| CrashGuard.FailedStartCounts | installer/updater.py:1484-1506 | A start whose process could not be created is counted too and changes nothing else |
| CrashGuard.NotLaunched | installer/updater.py:1381-1408 | After three it is not launched, is quarantined and its exe is deleted |
| CrashGuard.ExactlyTheFirstStarts | installer/updater.py:1260-1526 | From a first start over any run, then an install: of the starts that follow exactly the first three launch the version and none of them quarantines anything; the fourth deletes its exe, and it is never launched again |
| CrashGuard.GoodStartRecorded | installer/updater.py:1411-1422 | The first good start of the followed version is recorded and makes it the last good one if it verifies |
| CrashGuard.OneGoodStartIsEnough | installer/updater.py:1396-1422 | Once one start was recorded as good, every further start that finds the version pending, newer and verified launches it |
| CrashGuard.LastGoodIsLaunched | installer/updater.py:1362-1408 | With no pending version to start, the last good one is launched exactly when it verifies, is newer, is not quarantined and is not itself counted out |
| CrashGuard.NextKeeps | installer/updater.py:1260-1425 | Installs, starts, restarts, recorded starts, pruning and corrupted files keep the counting invariant |
| CrashGuard.GuardHolds | installer/updater.py:1260-1526 | From a first start, over any run, both bounds hold: what is launched was installed last or started well before, and at most three launches follow an install without a recorded good start |
| CrashGuard.PruneKeeps | installer/updater.py:1301-1317 | Pruning deletes neither the last good launcher nor an exe newer than one kept for its age |
| CrashGuard.PruneLeavesThree | installer/updater.py:1301-1317 | And leaves at most three exes |
| CrashGuard.QuarantineKeeps | installer/updater.py:1381-1393 | A quarantined version stays so unless the list of twenty is full and it is the oldest |
| Launcher.Updater.VerifiedExe | installer/updater.py:1343-1359 | True exactly when the manifest names this version and this content; an exe that differs is deleted |
| Launcher.Updater.RestoreLastGoodExe | installer/updater.py:1362-1371 | Leaves exactly the files of the specification, the pending version included |
| Launcher.Updater.Fallback | installer/updater.py:1381-1393 | Quarantines, forgets and deletes the version, then restores the last good one |
| Launcher.Updater.MayHandoffTo | installer/updater.py:1396-1408 | Counts a start, or gives the version up after three |
| Launcher.Updater.MarkBootOk | installer/updater.py:1411-1422 | Records a good start only of the version the guard follows, then prunes |
| Launcher.Updater.RunPendingHandoff | installer/updater.py:1484-1506 | Picks exactly the version of the specification, second chance included |
| Launcher.Updater.RelaunchPendingExe | installer/updater.py:1509-1526 | The same for the restart button, without a second chance |
| Launcher.Updater.ApplyExeUpdate | installer/updater.py:1283-1294 | Leaves the installed version pending with a fresh counter, then prunes |
| SecondFactor.CounterHolds | server/src/lib/second-factor.ts:48-66 | The counter stays within 0 to 5 and the lock is set exactly when it is 5 |
| SecondFactor.AttemptsBounded | server/src/lib/second-factor.ts:48-122 | In a run without success at most 5 * (W / 900 + 1) attempts are let through in any W seconds, whatever requests interleave |
| SecondFactor.AcceptedOnce | server/src/lib/second-factor.ts:69-102 | Over any run each TOTP step and each backup code is accepted at most once |
| SecondFactor.CheckBurns | server/src/lib/second-factor.ts:69-102 | A code is accepted exactly when its token is still good; a backup code then burns only itself, a step itself and the steps before it, and a refused code burns nothing |
| SecondFactor.GoodUntilUsed | server/src/lib/second-factor.ts:69-102 | Over any run a good token stays good exactly until it, or for a step a later one, is accepted |
| SecondFactor.AttemptsLeft | server/src/lib/second-factor.ts:48-62 | From an unlocked account every attempt is let through until five are counted without success; the fifth locks it until 900 seconds later |
| SecondFactor.LockedThenRearmed | server/src/lib/second-factor.ts:48-62 | The next is let through exactly from then on, and counts as the first of five more |
| SecondFactor.User.ReserveAttempt | server/src/lib/second-factor.ts:48-62 | Refuses exactly while locked; otherwise counts, rearms an expired lock and locks at the fifth |
| SecondFactor.User.CheckCode | server/src/lib/second-factor.ts:69-102 | Accepts a fresh step or an unused code and burns it |
| SecondFactor.User.VerifySecondFactor | server/src/lib/second-factor.ts:110-122 | A locked account refuses even a right code and is unchanged; a failure is counted and at the fifth locks for 900 seconds; a success resets the counter and burns exactly its token |
| SecondFactor.MatchTotpStep | server/src/lib/totp.ts:86-99 | Returns the first step of the window whose code matches, none exactly when none does |
| Base32.ShiftInBits | server/src/lib/totp.ts:21-33 | The 32-bit accumulator keeps up to 32 pending bits exactly, though it is never masked |
| Base32.Base32Encode | server/src/lib/totp.ts:21-35 | The loops compute the encoding of the specification |
| Base32.Base32Decode | server/src/lib/totp.ts:37-53 | The loop computes the decoding of the specification, invalid characters included |
| Base32.RoundTrip | server/src/lib/totp.ts:21-53 | Decoding an encoding gives the bytes back, for every byte string |
| Base32.AlphabetIs | server/src/lib/totp.ts:19-19 | Characters and values correspond as in section 6 of RFC 4648 |
| Base32.ReadsAlike | server/src/lib/totp.ts:37-38 | A secret reads the same in upper case, with padding behind it and with a blank anywhere in it |
| Sessions.WindowOverRuns | server/src/routes/auth.ts:474-485 | Over any run, after n rotations the superseded list holds exactly the last min(n, 20) replaced hashes |
| Sessions.AtMostOneWins | server/src/routes/auth.ts:470-486 | Of all refreshes presenting one token, in any run, at most one wins |
| Sessions.ReplayRevokesIff | server/src/routes/auth.ts:487-505 | A replayed token revokes its session exactly when it is one of the last twenty, and no other session |
| Sessions.RevokedNeverRefreshed | server/src/routes/auth.ts:474-505 | No refresh of a revoked session ever succeeds again |
| Sessions.RefreshIff | server/src/routes/auth.ts:474-518 | Over any run a refresh succeeds exactly when its token is the current one of a session, then the only such, that is neither revoked, expired nor ninety days old, of an active user |
| Sessions.RefreshDoes | server/src/routes/auth.ts:474-518 | The session then has the drawn token and the new expiry and remembers the old one; all others are untouched; a suspended user's is revoked |
| Sessions.LoginDoes | server/src/routes/auth.ts:179-187 | A login starts one session, at that time, with the token it drew |
| Sessions.LogoutDoes | server/src/routes/auth.ts:524-530 | A logout revokes its session only |
| Sessions.NinetyDaysAtMost | server/src/routes/auth.ts:482-484 | However often it is refreshed, from ninety days after its login no token of a session is accepted |
| Sessions.SessionTable.RefreshToken | server/src/routes/auth.ts:464-520 | The route leaves exactly the table of the specification and succeeds exactly when it says |
| SseScanner.ChunkingIrrelevant | ai-gateway/src/app.ts:236-256 | However the stream is cut, pending text, last usage and character count end as if it were fed whole |
| SseScanner.LineReports | ai-gateway/src/app.ts:244-254 | A line counts exactly when it is "data:" and text, with any blanks around, that is not the end mark and parses |
| SseScanner.StreamMeans | ai-gateway/src/app.ts:236-256 | However the stream is cut, the count is the content all its complete lines report and the usage is the one reported last; the incomplete line waits |
| SseScanner.Scanner.Inspect | ai-gateway/src/app.ts:236-256 | The loop leaves exactly the state of the specification |
| Paging.ListingExactIff | server/src/routes/nodes.ts:282-321 | Following the cursors gives the whole listing once, in order, exactly when every row that ends a full page has a whole millisecond |
| Paging.ListingSkipsNothing | server/src/routes/nodes.ts:64-83 | A client that reaches the end has every row, whatever the times |
| Paging.SingleRowPagesLoop | server/src/routes/nodes.ts:316-317 | With pages of one row, a row between two milliseconds is served for ever |
| Paging.FetchBacklog | server/src/collab/relay.ts:682-713 | Paging the backlog while more is left gives all its rows, once, in order |

## Left out

- Revocation.RemovedMemberReadsNothingLater: speaks of content versions and relayed updates; a compaction snapshot is not checked against the epoch by the server (`server/src/collab/relay.ts:647-679`) and is outside the claim, as is a removal by a move.
- UploadSafety.NoDanglingBlob: takes the collection of references and the deletion of rows as one step, and an error from a transaction as meaning that it did not commit.
- DriveEffects.ReadersReadEverything: speaks of all envelopes ever stored; the server keeps the link of the last rotation only, which `RotationProtocol` models.
- RotationProtocol.AlwaysReadable: the re-encryption of the collaboration log is in `RelayDelivery.ReadersAreHonest`, that of names and metadata, which travel with the rotation, is not modelled, nor is the quota check of a re-encrypted blob; every rotation names the epoch it expects, as the client's do.
- UploadSafety.QuotaHolds: takes quotas fixed for the run; the personal quota and the disk-space check appear only as uploads that may be aborted at any step.
- SecondFactor.AttemptsBounded: counts an attempt at the time it is reserved, which precedes the evaluation of its code.
- CrashGuard.ThenQuarantined: the quarantine list keeps its last twenty versions, so a version may leave it after twenty others.
- RelayDelivery.JoinCoverage: an update whose broadcast is still to come is not claimed yet.
- Base32.Base32Decode: upper-casing and spaces are those of ASCII.
- Clients of the previous generation (`LEGACY_CLIENT_COMPAT`), which skip the version and epoch comparison.
- Authorisation of each Drive request: who may ask is in `Access`; the Drive steps start after the permission checks.
- DriveStore.Store.RotateNode: the revocation of the node's share links is left out with the links themselves.
- Share links, restore of versions, organisation membership and key rotation, account deletion, SCIM: no step of the model does them.
- Redis backplane, WebSocket transport, token expiry, rate limits and the byte budgets of the relay: one instance, and any socket may close at any step.
- UTF-8 decoding of the event stream; the scanner receives decoded text.
- HTTP routing, request parsing, the database itself: tables are maps and sequences, locks make steps atomic.
- Real cryptography: signatures, SHA-256, AES, HMAC and the truncation of TOTP codes are functions or envelopes.
- Unicode digits, letter case and spaces in version strings and commit messages; integers too long for Python to parse.
- Build metadata after `+`: `version_tuple` keeps the digits of `4.7.0+1` as part of the patch number, which the model reproduces; the order theorems hold for it, the parsing theorems exclude it.
- Failing file operations in the updater, other than a failed start of the new exe; an install that fails after its artefact was stored is a step.
- `_prune_old_exe` does not protect the pending launcher, and nothing here claims it.
- The user interface, installers, site settings, OIDC and WebAuthn.
