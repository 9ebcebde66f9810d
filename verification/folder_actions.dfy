/** The folder actions that add to the tree: "add object" and "add folder",
    for device folders and for local folders. */
module FolderActions {
  import opened Tree
  import opened FolderRestore
  import RestoreProperties

  /** The attributes a device folder's "add object" writes on the point's
      node (`AddObjectHandler`); `instance` and `priority` are the form's
      numbers after `intValue()`. */
  function DeviceObjectAttrs(attrs: map<string, Value>, objectType: string, instance: int, useCov: bool,
                             settable: bool, priority: int): map<string, Value> {
    attrs[OBJECT_TYPE := Str(objectType)][INSTANCE_NUMBER := Num(instance)][USE_COV := Bool(useCov)]
         [SETTABLE := Bool(settable)][RESTORE_TYPE := Str(DEVICE.pointTag)][DEFAULT_PRIORITY := Num(priority)]
  }

  /** A device folder's "add object": the named child (existing or new)
      gets the point attributes. */
  function DeviceAddObject(n: Node, name: string, objectType: string, instance: int, useCov: bool,
                           settable: bool, priority: int): (r: Node)
    ensures r.children.Keys == n.children.Keys + {name}
    ensures forall k :: k in n.children && k != name ==> r.children[k] == n.children[k]
  {
    var (p, c) := CreateChild(n, name);
    p.(children := p.children[name := c.(attrs := DeviceObjectAttrs(c.attrs, objectType, instance, useCov, settable, priority))])
  }

  /** A local folder's "add object" (`LocalDeviceFolder.addObject`): the
      same without a default priority, tagged "editable point". */
  function LocalAddObject(n: Node, name: string, objectType: string, instance: int, useCov: bool,
                          settable: bool): (r: Node)
    ensures r.children.Keys == n.children.Keys + {name}
    ensures forall k :: k in n.children && k != name ==> r.children[k] == n.children[k]
  {
    var (p, c) := CreateChild(n, name);
    var attrs := c.attrs[OBJECT_TYPE := Str(objectType)][INSTANCE_NUMBER := Num(instance)][USE_COV := Bool(useCov)]
                        [SETTABLE := Bool(settable)][RESTORE_TYPE := Str(LOCAL.pointTag)];
    p.(children := p.children[name := c.(attrs := attrs)])
  }

  /** "add folder": the named child (existing or new) becomes a folder of
      the same kind (`DeviceFolder.AddFolderHandler`,
      `EditableFolder.AddFolderHandler` with `LocalDeviceFolder.addFolder`). */
  function AddFolder(pol: Policy, n: Node, name: string): (r: Node)
    ensures r.children.Keys == n.children.Keys + {name}
    ensures Tagged(r.children[name], pol.folderTag)
    ensures forall k :: k in n.children && k != name ==> r.children[k] == n.children[k]
  {
    var (p, c) := CreateChild(n, name);
    p.(children := p.children[name := Construct(pol, c)])
  }

  /** Whether the name an action adds under was already taken by an action
      node, which the add reuses and the saved form then drops. */
  predicate TakenByAction(n: Node, name: string) {
    name in n.children && n.children[name].hasAction
  }

  /** After saving and restoring, a complete point child that is not an
      action node comes back with its attributes, a default priority filled
      in. */
  lemma SavedPointRestored(pol: Policy, m: Node, name: string, sentinels: set<string>)
    requires RestoreProperties.DistinctTags(pol)
    requires name in m.children && !m.children[name].hasAction
    requires Tagged(m.children[name], pol.pointTag) && Complete(pol, m.children[name])
    ensures var r := RestoreFolder(pol, Persist(m), sentinels);
      name in r.children && r.children[name].attrs == WithDefaultPriority(m.children[name]).attrs
  {
    var s := Persist(m);
    PersistChild(m, name);
    assert s.children[name].attrs == m.children[name].attrs;
    RestoreProperties.PointRule(pol, s, sentinels, name);
  }

  /** After saving and restoring, a child that was an action node is gone;
      only an action of the folder comes back under its name. */
  lemma SavedActionRestored(pol: Policy, m: Node, name: string, sentinels: set<string>)
    requires name in m.children && m.children[name].hasAction
    ensures var r := RestoreFolder(pol, Persist(m), sentinels);
      && (name in r.children <==> name in pol.actions)
      && (name in r.children ==> r.children[name] == ACTION)
  {
    PersistChild(m, name);
  }

  /** The child "add object" leaves on a device folder: tagged as a point,
      with every attribute of the form, and an action node exactly when it
      reused one. */
  lemma DeviceAddedChild(n: Node, name: string, objectType: string, instance: int, useCov: bool,
                         settable: bool, priority: int)
    ensures var c := DeviceAddObject(n, name, objectType, instance, useCov, settable, priority).children[name];
      && c.hasAction == TakenByAction(n, name)
      && Tagged(c, DEVICE.pointTag) && Complete(DEVICE, c)
      && HasAttr(c, OBJECT_TYPE, Str(objectType)) && HasAttr(c, INSTANCE_NUMBER, Num(instance))
      && HasAttr(c, USE_COV, Bool(useCov)) && HasAttr(c, SETTABLE, Bool(settable))
      && HasAttr(c, DEFAULT_PRIORITY, Num(priority))
  {
  }

  /** The child the local "add object" leaves: tagged as an editable point
      with its type and instance number, with no default priority when it
      is new, and an action node exactly when it reused one. */
  lemma LocalAddedChild(n: Node, name: string, objectType: string, instance: int, useCov: bool, settable: bool)
    ensures var c := LocalAddObject(n, name, objectType, instance, useCov, settable).children[name];
      && c.hasAction == TakenByAction(n, name)
      && Tagged(c, LOCAL.pointTag) && Complete(LOCAL, c)
      && HasAttr(c, OBJECT_TYPE, Str(objectType)) && HasAttr(c, INSTANCE_NUMBER, Num(instance))
      && (name !in n.children ==> DEFAULT_PRIORITY !in c.attrs)
  {
  }

  /** An object added to a device folder survives saving and the next
      restore with the attributes the form gave it, unless its name
      belonged to an action node: then only an action of the folder comes
      back under that name. */
  lemma DeviceObjectSurvivesRestore(n: Node, name: string, objectType: string, instance: int, useCov: bool,
                                    settable: bool, priority: int, sentinels: set<string>)
    ensures var r := RestoreFolder(DEVICE, Persist(DeviceAddObject(n, name, objectType, instance, useCov, settable, priority)), sentinels);
      && (!TakenByAction(n, name) ==>
            && name in r.children
            && HasAttr(r.children[name], OBJECT_TYPE, Str(objectType))
            && HasAttr(r.children[name], INSTANCE_NUMBER, Num(instance))
            && HasAttr(r.children[name], USE_COV, Bool(useCov))
            && HasAttr(r.children[name], SETTABLE, Bool(settable))
            && HasAttr(r.children[name], DEFAULT_PRIORITY, Num(priority)))
      && (TakenByAction(n, name) ==>
            (name in r.children <==> name in DEVICE.actions) && (name in r.children ==> r.children[name] == ACTION))
  {
    var m := DeviceAddObject(n, name, objectType, instance, useCov, settable, priority);
    DeviceAddedChild(n, name, objectType, instance, useCov, settable, priority);
    if !TakenByAction(n, name) {
      SavedPointRestored(DEVICE, m, name, sentinels);
    } else {
      SavedActionRestored(DEVICE, m, name, sentinels);
    }
  }

  /** An object added to a local folder survives saving and the next
      restore, unless its name belonged to an action node; it keeps its
      type and instance number and gets priority 8 when it is new. */
  lemma LocalObjectSurvivesRestore(n: Node, name: string, objectType: string, instance: int, useCov: bool,
                                   settable: bool, sentinels: set<string>)
    ensures var r := RestoreFolder(LOCAL, Persist(LocalAddObject(n, name, objectType, instance, useCov, settable)), sentinels);
      && (!TakenByAction(n, name) ==>
            && name in r.children
            && HasAttr(r.children[name], OBJECT_TYPE, Str(objectType))
            && HasAttr(r.children[name], INSTANCE_NUMBER, Num(instance))
            && DEFAULT_PRIORITY in r.children[name].attrs
            && (name !in n.children ==> HasAttr(r.children[name], DEFAULT_PRIORITY, Num(8))))
      && (TakenByAction(n, name) ==>
            (name in r.children <==> name in LOCAL.actions) && (name in r.children ==> r.children[name] == ACTION))
  {
    var m := LocalAddObject(n, name, objectType, instance, useCov, settable);
    LocalAddedChild(n, name, objectType, instance, useCov, settable);
    if !TakenByAction(n, name) {
      SavedPointRestored(LOCAL, m, name, sentinels);
    } else {
      SavedActionRestored(LOCAL, m, name, sentinels);
    }
  }

  /** A folder added to a folder survives saving and the next restore,
      unless its name belonged to an action node: then only an action of
      the folder comes back under that name. */
  lemma AddedFolderSurvivesRestore(pol: Policy, n: Node, name: string, sentinels: set<string>)
    ensures var r := RestoreFolder(pol, Persist(AddFolder(pol, n, name)), sentinels);
      && (!TakenByAction(n, name) ==> name in r.children && Tagged(r.children[name], pol.folderTag))
      && (TakenByAction(n, name) ==>
            (name in r.children <==> name in pol.actions) && (name in r.children ==> r.children[name] == ACTION))
  {
    var m := AddFolder(pol, n, name);
    var s := Persist(m);
    assert m.children[name].hasAction <==> TakenByAction(n, name) by {
      var (p, c) := CreateChild(n, name);
      assert m.children[name] == Construct(pol, c);
    }
    PersistChild(m, name);
    if !TakenByAction(n, name) {
      assert s.children[name].attrs == m.children[name].attrs;
      RestoreProperties.FolderRule(pol, s, sentinels, name);
    } else {
      SavedActionRestored(pol, m, name, sentinels);
    }
  }
}
