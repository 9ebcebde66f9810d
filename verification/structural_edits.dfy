/** Structural edits of folders: remove, copy and rename of a device
    folder (`DeviceFolder`), and remove and "make copy" of a local folder
    (`EditableFolder`). A folder is named by its parent node and its name
    there. */
module StructuralEdits {
  import opened Wrappers
  import opened Tree
  import opened FolderRestore
  import RestoreProperties

  /** The guard of the copy and rename handlers: a non-empty name other than
      the folder's own. */
  predicate AcceptsNewName(newname: string, current: string) {
    |newname| > 0 && newname != current
  }

  /** `remove()`: the folder's children are cleared and its node detached
      from the parent. Returns the parent and the detached node, if the
      parent had it. */
  function Remove(parent: Node, name: string): (r: (Node, Option<Node>))
    ensures r.0 == RemoveChild(parent, name)
    ensures name !in r.0.children
    ensures r.1.Some? <==> name in parent.children
    ensures r.1.Some? ==> r.1.value.children == map[] && r.1.value.attrs == parent.children[name].attrs
  {
    (RemoveChild(parent, name),
     if name in parent.children then Some(parent.children[name].(children := map[])) else None)
  }

  /** `DeviceFolder.duplicate`: the folder's saved form is placed under the
      new name, then built and restored as a device folder. */
  function Duplicate(parent: Node, name: string, newname: string): (r: Node)
    requires name in parent.children
    ensures r.children.Keys == parent.children.Keys + {newname}
    ensures r.children[newname] == RestoreFolder(DEVICE, Persist(parent.children[name]), {})
    ensures forall k :: k in parent.children && k != newname ==> r.children[k] == parent.children[k]
  {
    parent.(children := parent.children[newname := RestoreFolder(DEVICE, Persist(parent.children[name]), {})])
  }

  /** The device folder's "make copy" handler: a rejected name changes
      nothing; an accepted one adds the copy and keeps the original. */
  function CopyHandler(parent: Node, name: string, newname: string): (r: Node)
    requires name in parent.children
    ensures !AcceptsNewName(newname, name) ==> r == parent
    ensures AcceptsNewName(newname, name) ==> r == Duplicate(parent, name, newname)
    ensures name in r.children && r.children[name] == parent.children[name]
    ensures r.children.Keys == parent.children.Keys + (if AcceptsNewName(newname, name) then {newname} else {})
  {
    if AcceptsNewName(newname, name) then Duplicate(parent, name, newname) else parent
  }

  /** The device folder's "edit" handler: `rename` is `duplicate` followed
      by `remove`, so an accepted name replaces the old one among the
      parent's children. */
  function RenameHandler(parent: Node, name: string, newname: string): (r: Node)
    requires name in parent.children
    ensures !AcceptsNewName(newname, name) ==> r == parent
    ensures AcceptsNewName(newname, name) ==> r == Remove(Duplicate(parent, name, newname), name).0
    ensures AcceptsNewName(newname, name) ==> r.children.Keys == parent.children.Keys - {name} + {newname}
  {
    if AcceptsNewName(newname, name) then Remove(Duplicate(parent, name, newname), name).0 else parent
  }

  /** A rename moves the folder: the old name is gone, the new name holds
      the restored copy, and every other sibling is as it was. */
  lemma RenameMovesFolder(parent: Node, name: string, newname: string)
    requires name in parent.children && AcceptsNewName(newname, name)
    ensures var r := RenameHandler(parent, name, newname);
      && r.children.Keys == parent.children.Keys - {name} + {newname}
      && r.children[newname] == RestoreFolder(DEVICE, Persist(parent.children[name]), {})
      && forall k :: k in r.children && k != newname ==> r.children[k] == parent.children[k]
  {
  }

  /** The folder a rename or copy produces is left as it is by the next
      restore, as long as no point in it is named after an action. */
  lemma CopyIsStable(parent: Node, name: string, newname: string)
    requires name in parent.children && AcceptsNewName(newname, name)
    requires NoActionClash(DEVICE, Persist(parent.children[name]))
    ensures var c := CopyHandler(parent, name, newname).children[newname];
      && RestoreFolder(DEVICE, c, {}) == c
      && c == RenameHandler(parent, name, newname).children[newname]
  {
    RestoreProperties.RestoreIdempotent(DEVICE, Persist(parent.children[name]), {});
  }

  /** A copy keeps the original, and copying twice under the same name is
      copying once. */
  lemma CopyKeepsOriginal(parent: Node, name: string, newname: string)
    requires name in parent.children && AcceptsNewName(newname, name)
    ensures var r := CopyHandler(parent, name, newname);
      && name in r.children && r.children[name] == parent.children[name]
      && CopyHandler(r, name, newname) == r
  {
  }

  /** `EditableFolder.duplicate` as written: the old node is removed and the
      folder then refers to the child of the new name, existing or new and
      empty. Returns the parent and the name the folder refers to. */
  function MoveAsWritten(parent: Node, name: string, newname: Option<string>): (r: (Node, string))
    ensures !(newname.Some? && AcceptsNewName(newname.value, name)) ==> r == (parent, name)
    ensures newname.Some? && AcceptsNewName(newname.value, name) ==>
      && r.1 == newname.value
      && r.0.children.Keys == parent.children.Keys - {name} + {newname.value}
      && r.0.children[newname.value] == (if newname.value in parent.children then parent.children[newname.value] else EMPTY)
  {
    if newname.Some? && AcceptsNewName(newname.value, name) then
      var (p, _) := CreateChild(RemoveChild(parent, name), newname.value);
      (p, newname.value)
    else (parent, name)
  }

  /** The local folder's "make copy" handler as written: the handler's guard,
      then `duplicate`. */
  function EditableCopyAsWritten(parent: Node, name: string, newname: string): (r: (Node, string))
    ensures r == MoveAsWritten(parent, name, Some(newname))
  {
    if AcceptsNewName(newname, name) then MoveAsWritten(parent, name, Some(newname)) else (parent, name)
  }

  /** "make copy" on a local folder, to a name not yet used, loses the
      folder: the next restore of the parent finds neither the old name nor
      the new one, whose node carries no tag and no action. */
  lemma MakeCopyLosesFolder(parent: Node, name: string, newname: string, sentinels: set<string>)
    requires name in parent.children && AcceptsNewName(newname, name)
    requires newname !in parent.children
    requires name !in LOCAL.actions && newname !in LOCAL.actions && newname !in sentinels
    ensures var r := RestoreFolder(LOCAL, EditableCopyAsWritten(parent, name, newname).0, sentinels);
      name !in r.children && newname !in r.children
  {
    var m := EditableCopyAsWritten(parent, name, newname).0;
    assert m.children[newname] == EMPTY;
    assert !Keeps(LOCAL, m.children[newname], false, false);
  }

  /** A local folder "zone" holding one complete point, copied to "zone 2":
      after the next restore the parent has neither folder. */
  lemma MakeCopyLosesPoint()
    ensures var pt := Node(map[RESTORE_TYPE := Str("editable point"), OBJECT_TYPE := Str("analog-value"),
                               INSTANCE_NUMBER := Num(1)], map[], false);
      var zone := Node(map[RESTORE_TYPE := Str("editable folder")], map["temp" := pt], false);
      var parent := Node(map[RESTORE_TYPE := Str("editable folder")], map["zone" := zone], false);
      var r := RestoreFolder(LOCAL, EditableCopyAsWritten(parent, "zone", "zone 2").0, {});
      "zone" !in r.children && "zone 2" !in r.children
  {
    var pt := Node(map[RESTORE_TYPE := Str("editable point"), OBJECT_TYPE := Str("analog-value"),
                       INSTANCE_NUMBER := Num(1)], map[], false);
    var zone := Node(map[RESTORE_TYPE := Str("editable folder")], map["temp" := pt], false);
    var parent := Node(map[RESTORE_TYPE := Str("editable folder")], map["zone" := zone], false);
    MakeCopyLosesFolder(parent, "zone", "zone 2", {});
  }

  /** "make copy" on a local folder as intended: like a device folder's
      copy, the saved form of the folder is restored under the new name and
      the original stays. */
  function CopyFolder(parent: Node, name: string, newname: Option<string>): (r: Node)
    requires name in parent.children
    ensures !(newname.Some? && AcceptsNewName(newname.value, name)) ==> r == parent
    ensures newname.Some? && AcceptsNewName(newname.value, name) ==>
      && r.children.Keys == parent.children.Keys + {newname.value}
      && r.children[newname.value] == RestoreFolder(LOCAL, Persist(parent.children[name]), {})
      && forall k :: k in parent.children && k != newname.value ==> r.children[k] == parent.children[k]
  {
    if newname.Some? && AcceptsNewName(newname.value, name) then
      parent.(children := parent.children[newname.value := RestoreFolder(LOCAL, Persist(parent.children[name]), {})])
    else parent
  }

  /** The corrected copy survives the next restore of the parent, and so
      does the original folder. */
  lemma CopyFolderKeepsBoth(parent: Node, name: string, newname: string, sentinels: set<string>)
    requires name in parent.children && AcceptsNewName(newname, name)
    requires Tagged(parent.children[name], LOCAL.folderTag)
    ensures var r := RestoreFolder(LOCAL, CopyFolder(parent, name, Some(newname)), sentinels);
      name in r.children && newname in r.children
  {
    var m := CopyFolder(parent, name, Some(newname));
    assert Keeps(LOCAL, m.children[name], name in LOCAL.actions, name in sentinels);
    assert Keeps(LOCAL, m.children[newname], newname in LOCAL.actions, newname in sentinels);
  }
}
