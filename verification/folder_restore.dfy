/** Restoring a folder of the tree from the last session
    (`DeviceFolder.restoreLastSession`, `LocalDeviceFolder.restoreLastSession`).
    Both walk the folder's children and, by the child's restore type,
    restore it as a folder, rebuild it as a point or prune it; they differ
    in their tags, in which attributes a point needs and in the actions a
    folder carries. */
module FolderRestore {
  import opened Tree

  /** What distinguishes the two folder kinds. */
  datatype Policy = Policy(folderTag: string, pointTag: string, required: set<string>, actions: set<string>)

  /** Folders of a remote device (`DeviceFolder`). */
  const DEVICE: Policy := Policy("folder", "point", {OBJECT_TYPE, INSTANCE_NUMBER, USE_COV, SETTABLE},
                                 {"remove", "add folder", "discover objects", "add object", "make copy", "edit"})

  /** Folders of the link's own local device (`LocalDeviceFolder`, whose
      constructor is `EditableFolder`'s). */
  const LOCAL: Policy := Policy("editable folder", "editable point", {OBJECT_TYPE, INSTANCE_NUMBER},
                                {"edit", "remove", "add object", "add folder", "make copy"})

  /** The default priority a restored point gets when it has none. */
  const DEFAULT_PRIORITY_VALUE: Value := Num(8)

  /** A point child has every attribute its kind needs. */
  predicate Complete(pol: Policy, c: Node) {
    pol.required <= c.attrs.Keys
  }

  /** The folder constructor: tags the node and attaches the folder's
      actions, reusing a child that already has an action's name. */
  function Construct(pol: Policy, n: Node): (r: Node)
    ensures Tagged(r, pol.folderTag)
    ensures r.children.Keys == n.children.Keys + pol.actions
    ensures forall k :: k in pol.actions ==> r.children[k].hasAction
    ensures forall k :: k in n.children && k !in pol.actions ==> r.children[k] == n.children[k]
  {
    Node(n.attrs[RESTORE_TYPE := Str(pol.folderTag)],
         map k | k in n.children.Keys + pol.actions ::
           if k !in pol.actions then n.children[k]
           else if k in n.children then n.children[k].(hasAction := true)
           else ACTION,
         n.hasAction)
  }

  /** A point child with a default priority: the one it has, or 8. */
  function WithDefaultPriority(c: Node): (r: Node)
    ensures DEFAULT_PRIORITY in r.attrs
    ensures DEFAULT_PRIORITY in c.attrs ==> r == c
    ensures DEFAULT_PRIORITY !in c.attrs ==> r.attrs == c.attrs[DEFAULT_PRIORITY := DEFAULT_PRIORITY_VALUE]
    ensures r.children == c.children && r.hasAction == c.hasAction
  {
    if DEFAULT_PRIORITY in c.attrs then c else c.(attrs := c.attrs[DEFAULT_PRIORITY := DEFAULT_PRIORITY_VALUE])
  }

  /** Whether the walk keeps a child: a folder always, a point when it is
      complete, anything else when it has an action or is one of the root's
      status and event nodes. `action` says whether the folder's constructor
      attached an action to it. */
  predicate Keeps(pol: Policy, c: Node, action: bool, sentinel: bool) {
    if Tagged(c, pol.folderTag) then true
    else if Tagged(c, pol.pointTag) then Complete(pol, c)
    else c.hasAction || action || sentinel
  }

  /** A kept child after the walk: a folder is restored in turn, a point has
      its default priority filled in. */
  function RestoreChild(pol: Policy, c: Node, action: bool): (r: Node)
    ensures r.hasAction == (c.hasAction || action)
    decreases c, 1
  {
    var d := if Tagged(c, pol.folderTag) then RestoreFolder(pol, c, {})
             else if Tagged(c, pol.pointTag) then WithDefaultPriority(c)
             else c;
    d.(hasAction := c.hasAction || action)
  }

  /** A folder built and restored (`new …Folder(node)` followed by
      `restoreLastSession()`): tagged, carrying its actions, with its
      children walked. Only the root folder's status and event nodes,
      named by `sentinels`, are protected from pruning; a nested folder has
      none. */
  function RestoreFolder(pol: Policy, n: Node, sentinels: set<string>): (r: Node)
    ensures Tagged(r, pol.folderTag)
    ensures r.hasAction == n.hasAction
    decreases n, 0
  {
    Node(n.attrs[RESTORE_TYPE := Str(pol.folderTag)],
         map k | k in n.children.Keys + pol.actions
                 && (k in n.children ==> Keeps(pol, n.children[k], k in pol.actions, k in sentinels))
           :: if k in n.children then RestoreChild(pol, n.children[k], k in pol.actions) else ACTION,
         n.hasAction)
  }

  /** The `restoreLastSession` loop itself, over a folder whose constructor
      has already run. */
  function Walk(pol: Policy, n: Node, sentinels: set<string>): Node {
    n.(children := map k | k in n.children && Keeps(pol, n.children[k], false, k in sentinels)
                     :: RestoreChild(pol, n.children[k], false))
  }

  /** Walking a constructed folder is what `RestoreFolder` computes: the
      constructor followed by the loop. */
  lemma WalkAfterConstruct(pol: Policy, n: Node, sentinels: set<string>)
    ensures Walk(pol, Construct(pol, n), sentinels) == RestoreFolder(pol, n, sentinels)
  {
    var c := Construct(pol, n);
    var w := Walk(pol, c, sentinels);
    var r := RestoreFolder(pol, n, sentinels);
    forall k | k in n.children && k in pol.actions
      ensures RestoreChild(pol, c.children[k], false) == RestoreChild(pol, n.children[k], true)
    {
      var x := n.children[k];
      assert c.children[k] == x.(hasAction := true);
      if Tagged(x, pol.folderTag) {
        assert RestoreFolder(pol, x.(hasAction := true), {}) == RestoreFolder(pol, x, {}).(hasAction := true);
      }
    }
    assert w.children.Keys == r.children.Keys;
    assert w.children == r.children;
  }

  /** Nothing restore would prune is named after an action: no action name
      carries a point tag, in this folder or in any folder below it. */
  predicate NoActionClash(pol: Policy, n: Node)
    decreases n
  {
    forall k :: k in n.children ==>
      && (k in pol.actions ==> !Tagged(n.children[k], pol.pointTag))
      && (Tagged(n.children[k], pol.folderTag) ==> NoActionClash(pol, n.children[k]))
  }

  /** A restored folder: tagged, carrying all its actions, and every child
      either a restored folder, a complete point with a default priority,
      or an action, status or event node. */
  predicate Consistent(pol: Policy, n: Node, sentinels: set<string>)
    decreases n, 0
  {
    && Tagged(n, pol.folderTag)
    && pol.actions <= n.children.Keys
    && forall k :: k in n.children ==> ChildConsistent(pol, n.children[k], k in pol.actions, k in sentinels)
  }

  predicate ChildConsistent(pol: Policy, c: Node, action: bool, sentinel: bool)
    decreases c, 1
  {
    && (action ==> c.hasAction)
    && (if Tagged(c, pol.folderTag) then Consistent(pol, c, {})
        else if Tagged(c, pol.pointTag) then Complete(pol, c) && DEFAULT_PRIORITY in c.attrs
        else c.hasAction || sentinel)
  }
}
