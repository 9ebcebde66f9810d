# BACnet gateway core: object synchronisation and tree reconciliation

This project models in Dafny the decision logic of the DSA BACnet link
(`dslink-java-bacnet`). The link mirrors the objects of remote BACnet
devices as points in a node tree, and it rebuilds that tree from the saved
state of the last session. The model covers:

- **Property plan.** This is the list of properties read for each object type
  (`PropertyPlan`). It is proved equal to an independent table, written
  property by property.
- **Object discovery.** The folder's set of known objects de-duplicates the
  device's object list (`Discovery`). The reference definition `Fresh` names
  each identifier that is neither known nor repeated, exactly once.
- **Property mapper.** This is `updatePointValue` (`PointMapper`), with its
  behaviour property by property (`MapperProperties`). It covers the
  unnamed-object counter, the "0"/"1" state-text fallback, the
  `engUnit.abbr.<n>` key and the dropping of error values. It also proves
  exactly where the mapper is idempotent and where it is not.
- **Batched reads.** `getProperties` applies each result to its point
  (`Fetch`). It is a method whose loop invariant ties it to a fold.
- **Ambiguous present values.** A schedule's present value is classified into
  a data type (`Ambiguous`).
- **Restore from the saved session.**
  - Device folders and local (editable) folders share one walk,
    parameterised by a `Policy` (`FolderRestore`, `RestoreProperties`).
  - The link's connections have their own restore (`LinkRestore`).
  - Each restore is proved idempotent. For folders this holds provided no
    point is named after one of its folder's actions (`NoActionClash`); for
    the link it holds whenever the first restore does not abort.
- **Folder actions.** "add object" and "add folder" are proved to survive the
  next restore (`FolderActions`). Remove, copy and rename are modelled too
  (`StructuralEdits`).
- **Change of value (COV).** The single-slot, latest-wins notification buffer
  is modelled, with the subscription settings and the choice between COV and
  polling (`Cov`).

Values decoded from the wire are one tagged union (`BacnetTypes.Wire`). The
library's formatting helpers are the uninterpreted parameters of a `Helpers`
record. A single `render` stands for both `PropertyValues.getString` and the
values' `toString`, and `Utils.*` results arrive already formatted. Every
Java exception the mapper can raise is caught by its caller, so the model
reports it as a `Failed` outcome that leaves the point unchanged. This is
exact for the casts and `List.set` calls, which happen before their branch
writes. The `stateText` and `weeklySchedule` loops could fail partway, but
the model's sequences are typed, so that case does not arise (see "Left
out").

## Model

| member | source | states |
|---|---|---|
| PropertyPlan.Plan | src/main/java/bacnet/DeviceFolder.java:439-487 | The plan of every object type starts with `objectName` and requests no property twice. |
| PropertyPlan.PlanWithinTable | src/main/java/bacnet/DeviceFolder.java:439-487 | Every property the plan requests for a type is one that the independent property-by-property table assigns to that type. |
| PropertyPlan.TableWithinPlan | src/main/java/bacnet/DeviceFolder.java:439-487 | Every property that the table assigns to a type is requested by that type's plan. |
| PropertyPlan.PlanMatchesTable | src/main/java/bacnet/DeviceFolder.java:439-487 | A property is read for a type if and only if the table lists it for that type. |
| PropertyPlan.UnlistedTypeReadsOnlyName | src/main/java/bacnet/DeviceFolder.java:440-486 | A type is outside every branch if and only if its plan is exactly `[objectName]`. |
| PropertyPlan.BinaryPlan | src/main/java/bacnet/DeviceFolder.java:450-453 | Binary input, output and value objects read `[objectName, inactiveText, activeText, presentValue]`. |
| PropertyPlan.DefaultSettable | src/main/java/bacnet/DeviceFolder.java:431-434 | Every object type that is settable by default (analog, binary and multi-state outputs and values) has its present value read. |
| PropertyPlan.PlanRefs | src/main/java/bacnet/DeviceFolder.java:439-487 | The requests queued for one object are its type's plan in order, each paired with that object. |
| Discovery.FreshIsNewOnce | src/main/java/bacnet/DeviceFolder.java:174-182 | The reference scan names each delivered identifier that is not already known exactly once, and names nothing else. |
| Discovery.PointsFollowIds | src/main/java/bacnet/DeviceFolder.java:426-437 | One point is made per identifier, in order, each with its type's default settable flag. |
| Discovery.RefsForCoversPlans | src/main/java/bacnet/DeviceFolder.java:426-487 | A read is queued if and only if its object is among the new points and its property is in that object's plan. |
| Discovery.ScanList | src/main/java/bacnet/DeviceFolder.java:174-182 | After a whole-list delivery, the known set is the old known set plus every delivered identifier. |
| Discovery.ScanListMakesFresh | src/main/java/bacnet/DeviceFolder.java:174-182 | A whole-list scan makes points for exactly the reference scan's fresh identifiers, in order. |
| Discovery.ScanListAppend | src/main/java/bacnet/DeviceFolder.java:174-182 | Scanning two lists one after the other is the same as scanning their concatenation. |
| Discovery.Discover | src/main/java/bacnet/DeviceFolder.java:161-202 | The corrected handler treats any split into whole lists and single items as one scan of all the identifiers. |
| Discovery.DiscoveryHandlerAsWritten | src/main/java/bacnet/DeviceFolder.java:161-202 | As written, without a remote device the handler does nothing. Otherwise every delivered identifier that was not known gets a point and no known one does, but the known set learns only the identifiers that arrived in whole lists. |
| Discovery.DiscoverAsWrittenCovers | src/main/java/bacnet/DeviceFolder.java:174-189 | As written, a pass adds points for exactly the delivered identifiers that were not known, possibly more than once each. |
| Discovery.DiscoveryHandlerCorrected | src/main/java/bacnet/DeviceFolder.java:161-202 | With the per-item insertion added: without a remote device the handler does nothing. Otherwise the known set grows by the delivered identifiers, and the new points are pairwise distinct and are exactly the delivered identifiers that were not yet known. |
| Discovery.SecondPassMakesOnlyNewObject | src/main/java/bacnet/DeviceFolder.java:174-182 | With the corrected handler, after a pass over {A, B}, a pass over {A, B, C} makes a point for C alone. |
| Discovery.PassesNeverRepeatAnObject | src/main/java/bacnet/DeviceFolder.java:174-189 | With the corrected handler, no object gets a point twice across two passes on the same folder. |
| Discovery.DiscoverAsWritten | src/main/java/bacnet/DeviceFolder.java:174-189 | As written, the handler's known set learns only the identifiers that arrived in whole lists. |
| Discovery.PerItemDeliveryRepeatsObject | src/main/java/bacnet/DeviceFolder.java:183-189 | As written, one object delivered twice item by item gets two points and stays unknown. |
| Discovery.PerItemDeliveryCorrected | src/main/java/bacnet/DeviceFolder.java:183-189 | With the insertion added, the same deliveries make one point and the object becomes known. |
| Discovery.WholeListsAgree | src/main/java/bacnet/DeviceFolder.java:174-189 | When every delivery is a whole list, the handler as written and the corrected one agree. |
| Ambiguous.ClassifyByTag | src/main/java/bacnet/DeviceFolder.java:504-512 | Booleans map to binary. Signed, real and double map to numeric. Octet and character strings map to alphanumeric. Enumerated and unsigned map to multi-state. Any other application tag gives no data type. Each mapping holds in both directions. |
| Ambiguous.Resolve | src/main/java/bacnet/DeviceFolder.java:490-501 | A primitive resolves to itself. An ambiguous value resolves to its conversion, failed or not. Anything else makes the cast throw. |
| Ambiguous.HandleAmbiguous | src/main/java/bacnet/DeviceFolder.java:489-513 | A failed conversion writes the failure message and keeps the data type. Any result changes only the present value, its source and the data type, and the data type is either unchanged or one of the four classes. A thrown cast changes nothing. |
| Ambiguous.ResolvedTypeSetsDataType | src/main/java/bacnet/LocalDeviceFolder.java:77-101 | A resolved primitive writes its text. The data type follows the four-way mapping for the listed tags and is left alone for every other tag. |
| PointMapper.UnnamedName | src/main/java/bacnet/DeviceFolder.java:311 | The generated name is "unnamed device " followed by the counter in decimal. |
| PointMapper.UnitsKey | src/main/java/bacnet/DeviceFolder.java:324 | The units key is "engUnit.abbr." followed by the unit's number in decimal, for any unit number below 2^31. |
| PointMapper.SetSlot | src/main/java/bacnet/DeviceFolder.java:332 | `List.set` succeeds if and only if the slot exists. It then changes that slot alone. |
| PointMapper.StateLabel | src/main/java/bacnet/DeviceFolder.java:328-331 | A state label is the value's text when that text is non-empty, and the fallback otherwise. |
| PointMapper.LastTypeId | src/main/java/bacnet/DeviceFolder.java:377-389 | The schedule's type code is the tag of the last non-null entry. If every entry is null, the code is unchanged. |
| PointMapper.UpdatePointValue | src/main/java/bacnet/DeviceFolder.java:305-424 | An error value is dropped with no change and no notification. A write that throws changes nothing. A write that succeeds notifies exactly once. The identifier and settable flag never change, and the counter moves only for `objectName`. |
| MapperProperties.ObjectNameRule | src/main/java/bacnet/DeviceFolder.java:308-315 | A non-empty name is stored verbatim and the counter is unchanged. An empty name becomes "unnamed device N" and the counter advances by exactly one. |
| MapperProperties.UnnamedNamesDistinct | src/main/java/bacnet/DeviceFolder.java:311-312 | Different counter values generate different names. |
| MapperProperties.TwoUnnamedObjects | src/main/java/bacnet/DeviceFolder.java:308-315 | Two empty names, starting from a fresh folder, give "unnamed device 0" and then "unnamed device 1". |
| MapperProperties.StateTextSlotRule | src/main/java/bacnet/DeviceFolder.java:327-338 | `inactiveText` writes slot 0 and `activeText` writes slot 1, with the "0" or "1" fallback for empty text, and nothing else changes. A missing slot throws. |
| MapperProperties.EmptyActiveTextFallsBack | src/main/java/bacnet/DeviceFolder.java:333-338 | An empty active text leaves "1" in slot 1 and does not touch slot 0. |
| MapperProperties.UnitsRule | src/main/java/bacnet/DeviceFolder.java:323-326 | A units value succeeds if and only if it is an engineering unit. It then sets the key and appends the unit's text. |
| MapperProperties.UnitsNotIdempotent | src/main/java/bacnet/DeviceFolder.java:323-326 | Delivering the same unit twice appends its text twice. |
| MapperProperties.EmptyNameNotIdempotent | src/main/java/bacnet/DeviceFolder.java:310-312 | Each delivery of an empty name generates a new name and advances the counter. |
| MapperProperties.LastTypeIdStartIndependent | src/main/java/bacnet/DeviceFolder.java:380-386 | Once some entry is non-null, the resulting type code does not depend on the starting code. |
| MapperProperties.LastTypeIdIdempotent | src/main/java/bacnet/DeviceFolder.java:377-389 | Scanning the same schedule twice keeps the same type code. |
| MapperProperties.RepeatStableDisplayValues | src/main/java/bacnet/DeviceFolder.java:308-397 | A second delivery of the same non-empty name, present value, model name, log buffer or notification class changes no field. |
| MapperProperties.RepeatStableSchedulePresentValue | src/main/java/bacnet/DeviceFolder.java:317-318 | A second delivery of a schedule's present value changes no field. |
| MapperProperties.RepeatStableStateSlots | src/main/java/bacnet/DeviceFolder.java:327-338 | A second delivery of an inactive or active text changes no field. |
| MapperProperties.RepeatStableLogReference | src/main/java/bacnet/DeviceFolder.java:350-362 | A second delivery of a trend log's object-property reference changes no field. |
| MapperProperties.WriteReferenceRepeat | src/main/java/bacnet/DeviceFolder.java:352-362 | Writing the same reference twice is the same as writing it once. |
| MapperProperties.RepeatStableLogCounters | src/main/java/bacnet/DeviceFolder.java:363-371 | A second delivery of a record count, buffer size, start time or stop time changes no field. |
| MapperProperties.RepeatStableWeekly | src/main/java/bacnet/DeviceFolder.java:377-389 | A second delivery of a weekly schedule changes no field, including the type code. |
| MapperProperties.RepeatStableDates | src/main/java/bacnet/DeviceFolder.java:374-421 | A second delivery of an effective period, exception schedule or date list changes no field. |
| MapperProperties.RepeatStableNotificationFields | src/main/java/bacnet/DeviceFolder.java:398-415 | A second delivery of priorities, ack-required bits, a recipient list or an unhandled property changes no field. |
| MapperProperties.OverwritingPropertiesIdempotent | src/main/java/bacnet/DeviceFolder.java:305-424 | Every property that overwrites, rather than appending or counting, is idempotent: only the notification count moves. |
| MapperProperties.ScalarBranchWritesField | src/main/java/bacnet/DeviceFolder.java:308-372 | Each branch that overwrites a text, number or flag field has a value that changes the record beyond its notification count. This covers object name, present value, model name, notification class, record count, buffer size, start and stop time, log buffer and ack-required bits. |
| MapperProperties.ListBranchWritesField | src/main/java/bacnet/DeviceFolder.java:323-421 | Each branch that writes a list or a composed text has a value that changes the record beyond its notification count. This covers units, output units, state texts, the inactive and active texts (given their slot exists), effective period, the schedules, priorities, recipients and dates. |
| MapperProperties.PlannedPropertiesHaveBranches | src/main/java/bacnet/DeviceFolder.java:308-487 | Every property some plan reads has a branch of its own in the mapper. Except for the log reference, that branch writes a field for some well-typed value. The log reference's written text comes only from the rendering helper. |
| MapperProperties.UnhandledPropertyOnlyNotifies | src/main/java/bacnet/DeviceFolder.java:421-423 | A property without a branch, or a log reference of the wrong kind, only triggers the change notification. |
| MapperProperties.ScheduleConversionFailure | src/main/java/bacnet/DeviceFolder.java:494-500 | A schedule's failed conversion stores the message and keeps the data type. |
| MapperProperties.PresentValueOfOtherTypes | src/main/java/bacnet/DeviceFolder.java:319-320 | For any type other than schedule, the present value is stored as its text, and nothing else changes except the notification count. |
| Fetch.Apply | src/main/java/bacnet/DeviceFolder.java:285-293 | A result for an object with no point changes nothing. Any other result changes only its own point, and keeps the set of objects. |
| Fetch.ApplyAll | src/main/java/bacnet/DeviceFolder.java:283-297 | Applying any sequence of results keeps the set of objects. |
| Fetch.ApplyAllFrame | src/main/java/bacnet/DeviceFolder.java:283-297 | A batch leaves alone every point that no result names, and the counter advances once per empty object name. |
| Fetch.GetProperties | src/main/java/bacnet/DeviceFolder.java:279-303 | Without a remote device nothing changes. Otherwise the results are applied in arrival order, the objects are kept, and the counter advances by the number of empty names. |
| Fetch.TwoUnnamedDevices | src/main/java/bacnet/DeviceFolder.java:308-315 | Within one batch, two objects with empty names are called "unnamed device 0" and "unnamed device 1". |
| Tree.CreateChild | src/main/java/bacnet/DeviceFolder.java:568 | `createChild(name).build()` returns the existing child, or else a new empty one, and changes no other child. |
| Tree.RemoveChild | src/main/java/bacnet/DeviceFolder.java:539 | Removing a child drops that name alone. |
| Tree.Persist | src/main/java/bacnet/DeviceFolder.java:79-104 | The saved form of a tree drops the action nodes, which are the ones marked not serializable, and keeps every attribute. |
| Tree.PersistActionFree | src/main/java/bacnet/DeviceFolder.java:79-104 | A tree without action nodes is saved exactly as it is. |
| Tree.PersistChild | src/main/java/bacnet/DeviceFolder.java:79-104 | A child is in the saved form exactly when it is not an action node, and it is then saved in turn. |
| Tree.PersistIdempotent | src/main/java/bacnet/DeviceFolder.java:79-104 | Saving a saved tree changes nothing. |
| FolderRestore.Construct | src/main/java/bacnet/DeviceFolder.java:73-106 | The constructor tags the node with the folder's restore type and gives it every action. It leaves the other children alone. |
| FolderRestore.WithDefaultPriority | src/main/java/bacnet/DeviceFolder.java:126-128 | A point without a default priority gets 8. A point that has one is unchanged. |
| FolderRestore.RestoreChild | src/main/java/bacnet/DeviceFolder.java:116-136 | A kept child carries an action exactly when it had one or the constructor gave it one. |
| FolderRestore.RestoreFolder | src/main/java/bacnet/DeviceFolder.java:113-138 | A restored folder carries its folder tag. |
| FolderRestore.WalkAfterConstruct | src/main/java/bacnet/LocalDeviceFolder.java:159-161 | Constructing a folder and then walking its children gives exactly the restored folder. |
| RestoreProperties.RestoreConsistent | src/main/java/bacnet/DeviceFolder.java:113-138 | Every child of a restored folder is one of four things: a restored folder, a complete point with a default priority, an action, or a status or event node. This holds at every depth, provided no point takes an action's name. |
| RestoreProperties.RestoreChildConsistent | src/main/java/bacnet/DeviceFolder.java:116-136 | Every kept child is consistent once restored. |
| RestoreProperties.ConsistentIsFixpoint | src/main/java/bacnet/DeviceFolder.java:113-138 | A consistent folder is restored to itself. |
| RestoreProperties.RestoreIdempotent | src/main/java/bacnet/DeviceFolder.java:113-138 | Restoring a restored folder again changes nothing, provided no point in it is named after one of its folder's actions. |
| RestoreProperties.PointRule | src/main/java/bacnet/DeviceFolder.java:121-133 | A point child survives if and only if it is complete. A survivor gets priority 8 unless it had a priority, and is otherwise unchanged. |
| RestoreProperties.UntaggedRule | src/main/java/bacnet/DeviceFolder.java:134-135 | An untagged child survives if and only if it has an action or is the root's status or event node. |
| RestoreProperties.FolderRule | src/main/java/bacnet/DeviceFolder.java:118-120 | A folder child always survives, restored in turn. |
| RestoreProperties.RequiredAttributes | src/main/java/bacnet/LocalDeviceFolder.java:163-168 | A device point needs object type, instance number, use COV and settable. A local point needs only object type and instance number. |
| RestoreProperties.LocalPointNeedsLess | src/main/java/bacnet/LocalDeviceFolder.java:162-173 | A point with only a type and an instance number is kept with priority 8 by a local folder and pruned by a device folder. |
| FolderActions.DeviceAddObject | src/main/java/bacnet/DeviceFolder.java:140-159 | "add object" creates or reuses the named child and changes no other child. |
| FolderActions.LocalAddObject | src/main/java/bacnet/LocalDeviceFolder.java:103-122 | The local "add object" creates or reuses the named child and changes no other child. |
| FolderActions.AddFolder | src/main/java/bacnet/DeviceFolder.java:565-571 | "add folder" leaves a child of that name tagged as a folder and changes no other child. |
| FolderActions.DeviceAddedChild | src/main/java/bacnet/DeviceFolder.java:149-155 | The child "add object" leaves on a device folder is a complete point with every attribute of the form. It is an action node exactly when the name belonged to one. |
| FolderActions.LocalAddedChild | src/main/java/bacnet/LocalDeviceFolder.java:110-115 | The child the local "add object" leaves is a complete editable point with its type and instance number, and without a priority when it is new. It is an action node exactly when the name belonged to one. |
| FolderActions.SavedPointRestored | src/main/java/bacnet/DeviceFolder.java:79-136 | A complete point child that is not an action node survives saving and restoring with its attributes, a default priority filled in. |
| FolderActions.SavedActionRestored | src/main/java/bacnet/DeviceFolder.java:79-136 | A child that is an action node is dropped by saving, and after the restore only an action of the folder comes back under its name. |
| FolderActions.DeviceObjectSurvivesRestore | src/main/java/bacnet/DeviceFolder.java:79-159 | An object added to a device folder survives saving and the next restore with every attribute the form gave it. If its name belonged to an action node, only the folder's action of that name comes back. |
| FolderActions.LocalObjectSurvivesRestore | src/main/java/bacnet/LocalDeviceFolder.java:103-122 | An object added to a local folder survives saving and the next restore with its type and instance number, and a new one gets priority 8. If its name belonged to an action node, only the folder's action of that name comes back. |
| FolderActions.AddedFolderSurvivesRestore | src/main/java/bacnet/LocalDeviceFolder.java:124-161 | An added folder survives saving and the next restore as a folder. If its name belonged to an action node, only the folder's action of that name comes back. |
| StructuralEdits.Remove | src/main/java/bacnet/DeviceFolder.java:537-540 | After `remove` the parent no longer has the name, and the detached node has no children. |
| StructuralEdits.Duplicate | src/main/java/bacnet/DeviceFolder.java:547-556 | The new name holds the folder's saved form, rebuilt and restored. Every other sibling is unchanged. |
| StructuralEdits.CopyHandler | src/main/java/bacnet/DeviceFolder.java:521-527 | An empty name, or the folder's own name, is a no-op. Any other name adds the copy under the new name, and the original stays unchanged. |
| StructuralEdits.RenameHandler | src/main/java/bacnet/DeviceFolder.java:529-535 | The same guard applies. An accepted rename is a duplicate followed by a remove, so the new name replaces the old one among the parent's children. |
| StructuralEdits.RenameMovesFolder | src/main/java/bacnet/DeviceFolder.java:542-545 | After a rename the old name is gone, the new name holds the restored copy, and every other sibling is unchanged. |
| StructuralEdits.CopyIsStable | src/main/java/bacnet/DeviceFolder.java:547-556 | A copied or renamed folder is left as it is by the next restore. |
| StructuralEdits.CopyKeepsOriginal | src/main/java/bacnet/DeviceFolder.java:521-527 | A copy keeps the original, and repeating the copy changes nothing. |
| StructuralEdits.MoveAsWritten | src/main/java/bacnet/EditableFolder.java:100-106 | As written, an accepted `duplicate` removes the old name and leaves the new name holding an existing child or an empty node. A null, empty or unchanged name is a no-op. |
| StructuralEdits.EditableCopyAsWritten | src/main/java/bacnet/EditableFolder.java:92-98 | The handler's guard followed by `duplicate` is `duplicate` alone. |
| StructuralEdits.MakeCopyLosesFolder | src/main/java/bacnet/EditableFolder.java:100-106 | As written, copying a local folder to a new name loses the folder at the next restore, under both names. |
| StructuralEdits.MakeCopyLosesPoint | src/main/java/bacnet/EditableFolder.java:102-104 | Concrete case: "zone" holds one complete point and is copied to "zone 2". Neither folder survives the next restore. |
| StructuralEdits.CopyFolder | src/main/java/bacnet/EditableFolder.java:92-106 | The corrected copy restores the saved folder under the new name and keeps every other child. |
| StructuralEdits.CopyFolderKeepsBoth | src/main/java/bacnet/EditableFolder.java:92-106 | With the corrected copy, both the original and the copy survive the next restore. |
| LinkRestore.GetString | src/main/java/bacnet/BacnetLink.java:221 | In the concatenation, a string value gives its text and any other value gives "null". |
| LinkRestore.NumberText | src/main/java/bacnet/BacnetLink.java:221 | A number gives its decimal text. Any other value has no number, and the call on it throws. |
| LinkRestore.Prepare | src/main/java/bacnet/BacnetLink.java:214-228 | A missing foreign-registration flag becomes false. A missing bbmd list becomes "ip:port" when both legacy attributes exist, and " " otherwise. Existing values are kept. A legacy port that is not a number throws, and only then. |
| LinkRestore.RestoreLink | src/main/java/bacnet/BacnetLink.java:209-262 | The restore aborts exactly when some child's migration throws. Otherwise only the children not pruned remain, each with its defaults filled in, and every connection belongs to a remaining child. |
| LinkRestore.ConnectionRule | src/main/java/bacnet/BacnetLink.java:246-261 | Unless the restore aborts, a child is kept if and only if it has all ten common attributes or is named "defs". It gets a connection if and only if it also has a complete transport, and IP takes precedence over serial. |
| LinkRestore.PrepareKeepsVerdict | src/main/java/bacnet/BacnetLink.java:214-254 | The defaults the restore fills in never change a child's verdict. |
| LinkRestore.PreparedIsFixpoint | src/main/java/bacnet/BacnetLink.java:214-228 | A prepared child cannot throw, is its own preparation and keeps its verdict. |
| LinkRestore.RestoreLinkIdempotent | src/main/java/bacnet/BacnetLink.java:205-263 | When a restore succeeds, restoring its result again succeeds and gives the same children and connections. |
| Cov.Receive | src/main/java/bacnet/DeviceFolder.java:244-252 | A notification from the remote device about the point's object replaces the buffered one. Any other notification is ignored. |
| Cov.Drain | src/main/java/bacnet/DeviceFolder.java:235-240 | Taking from the buffer returns its content and empties it. |
| Cov.LatestWins | src/main/java/bacnet/DeviceFolder.java:247-251 | After any run of notifications, the buffer holds the last one meant for the point, or its earlier content if none was. |
| Cov.NothingBeforeRemote | src/main/java/bacnet/DeviceFolder.java:247 | Before the remote device is known, nothing is buffered. |
| Cov.ParseCovUsage | src/main/java/bacnet/DeviceFolder.java:207-211 | The mode is CONFIRMED or UNCONFIRMED if and only if the attribute names it. Anything else leaves NONE. |
| Cov.SetupCov | src/main/java/bacnet/DeviceFolder.java:204-231 | No subscription is made without a remote device or in mode NONE. Otherwise a missing or non-numeric lease throws, and so does a negative lifetime. A lease of m minutes with 0 <= 60m < 2^31 gives a subscription of 60m seconds, confirmed exactly in CONFIRMED mode. |
| Cov.UsesCov | src/main/java/bacnet/BacnetLink.java:289-295 | A point uses COV if and only if the root's mode is not NONE and the point opts in. |
| Cov.SetupPoint | src/main/java/bacnet/BacnetLink.java:265-272 | Handlers go on the point's node and its present-value child exactly when the local device is up. |
| Cov.OnSubscribe | src/main/java/bacnet/BacnetLink.java:274-296 | Only nodes 0 and 1 subscribe, each with the COV choice. |
| Cov.NodesAgree | src/main/java/bacnet/BacnetLink.java:270-295 | Both nodes of a point subscribe the same way: with COV exactly when the root's mode is not NONE and the point opts in. |
| Decimal.JavaInt32 | src/main/java/bacnet/DeviceFolder.java:365 | `intValue()` is the value itself in the `int` range, and otherwise agrees with it modulo 2^32. |

## Left out

- Network round trips are left out: the object-list read, `readProperties` and the `SubscribeCOVRequest` send. Their results enter the model as input sequences (`Delivery`, `Reading`, `Event`).
- Thread pools, listener registration and unsubscription are left out. Only the single-slot, latest-wins behaviour of the COV buffer is kept.
- Serial port enumeration and the UI's action and parameter forms are left out. They are native and UI plumbing.
- The JSON serialize/splice/deserialize of `DeviceFolder.duplicate` is modelled as "saved form, then rebuild and restore" (`Tree.Persist` then `RestoreFolder`). `encodeName` is treated as the identity, and a copy onto an existing sibling's name replaces that sibling.
- `PropertyValues.getString`, `toString` and `Utils.*` are uninterpreted parameters (`Helpers`). A character string renders as its own content. Dates, schedules, recipients and calendar entries arrive already formatted.
- `BacnetPoint`, `LocalBacnetPoint` and `BacnetConn` internals are not part of this model: point construction, `connection.restoreLastSession` and the point's own restore. The root's status and event nodes are a `sentinels` parameter.
- A restore type that is not a string is treated as untagged, which means it is pruned unless it has an action. In `DeviceFolder` the Java code would throw there.
- LinkRestore.Prepare: renders a number as an integer. The legacy bbmd port's `Number.toString()` would render a non-integral number differently.
- LinkRestore.RestoreLink: an aborted restore is `None`. Which children the loop had already processed before the throw depends on the node map's iteration order, which is not modelled.
- Discovery.DiscoveryHandlerCorrected: this is the handler with the per-item insertion added (see "Findings"). The program's own handler is `Discovery.DiscoveryHandlerAsWritten`, which promises coverage of the unknown objects but not distinctness.
- Discovery.PassesNeverRepeatAnObject: this is stated for the corrected handler. As written, `Discovery.PerItemDeliveryRepeatsObject` shows one object getting two points.
- RestoreProperties.RestoreIdempotent: this holds only when no point is named after an action of its folder (`NoActionClash`). An incomplete point under an action's name is pruned together with the action it carried, and the next restore brings the action back.
- PointMapper.UpdatePointValue: the `stateText` and `weeklySchedule` sequences are assumed to hold only elements of the expected type. An element of another type met partway through the loop would throw after earlier elements were written, and the model cannot express that partial write.
- `PropertyValues.getString(v)` is assumed to equal `v.toString()` for the values the mapper formats, so one `render` helper stands for both. The two library routines are not part of this model.
- MapperProperties.PlannedPropertiesHaveBranches: does not show that a log reference ever changes the point. Its written text comes from the uninterpreted rendering helper, so no value is guaranteed to differ from the old one.
- `OtherType` and `OtherProperty` are assumed to carry only codes without a named constructor. The types do not enforce this.
- The local folder's "edit" action, when put on an already existing child, is not marked unserializable in `LocalDeviceFolder.setEditAction`. The model treats it like every other action node, which the saved form drops.
- The polling interval (`1000 * doubleValue`) is left out because it is floating point.
- The folder's unnamed-object counter is an unbounded natural number. The Java `int` would wrap after 2^31 empty names.
- `CovType.java` is not part of this model. The modes NONE, UNCONFIRMED and CONFIRMED are assumed, as is `getCovType()` possibly returning null (`None`), which counts as "not NONE".
- Cov.SetupCov: assumes that the `UnsignedInteger` constructor rejects a negative lifetime (`Throws`). That library class is not part of this model.
- `ackRequired` is modelled as the three transition bits. This reads `getValue(1..3)` as a 1-based bit index, which is a library convention not shown here.
- Removing children while the restore loops iterate over them is treated as if every decision were made on the original children. The SDK's iteration semantics are not part of this model.
- The property mapper is not idempotent, and the model follows the code on this. `units`, `outputUnits` and `stateText` append, and an empty name advances the counter. `MapperProperties` proves both the counterexamples and idempotence for every other property.
- `LocalDeviceFolder.edit` has an empty body, and it is not modelled.
- `getProperties` stops consuming results at `prog == 1`. The model applies every result it is given.

## Findings

| source | as written | input that shows it | evidently intended | confidence | as-written member | corrected member |
|---|---|---|---|---|---|---|
| src/main/java/bacnet/DeviceFolder.java:183-189 | The per-item branch checks `pointSet` but never adds the identifier to it. | The same object identifier delivered twice as single items in one discovery pass. | Like the whole-list branch, insert before making the point, so each object gets one point. | medium, not executed | Discovery.DiscoveryHandlerAsWritten, Discovery.DiscoverAsWritten, Discovery.PerItemDeliveryRepeatsObject | Discovery.DiscoveryHandlerCorrected, Discovery.Discover, Discovery.PassesNeverRepeatAnObject, Discovery.PerItemDeliveryCorrected |
| src/main/java/bacnet/EditableFolder.java:100-106 | "make copy" removes the folder's node and then creates an empty, untagged node under the new name. | A local folder "zone" with one complete point, copied to "zone 2", followed by a restore of the parent. | Copy the folder, keeping the original, as `DeviceFolder.duplicate` does. | medium, not executed | StructuralEdits.EditableCopyAsWritten, StructuralEdits.MakeCopyLosesFolder | StructuralEdits.CopyFolder, StructuralEdits.CopyFolderKeepsBoth |
