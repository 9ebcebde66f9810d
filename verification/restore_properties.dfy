/** What restoring a folder guarantees. */
module RestoreProperties {
  import opened Tree
  import opened FolderRestore

  /** A restored folder is consistent, provided no action name is taken by
      a point. */
  lemma {:induction false} RestoreConsistent(pol: Policy, n: Node, sentinels: set<string>)
    requires NoActionClash(pol, n)
    ensures Consistent(pol, RestoreFolder(pol, n, sentinels), sentinels)
    decreases n, 0
  {
    var r := RestoreFolder(pol, n, sentinels);
    forall k | k in r.children
      ensures ChildConsistent(pol, r.children[k], k in pol.actions, k in sentinels)
    {
      if k in n.children {
        RestoreChildConsistent(pol, n.children[k], k in pol.actions, k in sentinels);
      }
    }
    forall k | k in pol.actions
      ensures k in r.children
    {
      if k in n.children {
        assert !Tagged(n.children[k], pol.pointTag);
      }
    }
  }

  lemma {:induction false} RestoreChildConsistent(pol: Policy, c: Node, action: bool, sentinel: bool)
    requires Keeps(pol, c, action, sentinel)
    requires Tagged(c, pol.folderTag) ==> NoActionClash(pol, c)
    ensures ChildConsistent(pol, RestoreChild(pol, c, action), action, sentinel)
    decreases c, 1
  {
    var d := RestoreChild(pol, c, action);
    if Tagged(c, pol.folderTag) {
      RestoreConsistent(pol, c, {});
      ConsistentIgnoresAction(pol, RestoreFolder(pol, c, {}), c.hasAction || action);
    } else if Tagged(c, pol.pointTag) {
      assert d.attrs == WithDefaultPriority(c).attrs;
    }
  }

  /** The action flag of a folder does not affect whether it is consistent. */
  lemma ConsistentIgnoresAction(pol: Policy, n: Node, b: bool)
    requires Consistent(pol, n, {})
    ensures Consistent(pol, n.(hasAction := b), {})
  {
    assert n.(hasAction := b).children == n.children;
  }

  /** A consistent folder is restored to itself. */
  lemma {:induction false} ConsistentIsFixpoint(pol: Policy, n: Node, sentinels: set<string>)
    requires Consistent(pol, n, sentinels)
    ensures RestoreFolder(pol, n, sentinels) == n
    decreases n
  {
    var r := RestoreFolder(pol, n, sentinels);
    forall k | k in n.children
      ensures Keeps(pol, n.children[k], k in pol.actions, k in sentinels)
      ensures RestoreChild(pol, n.children[k], k in pol.actions) == n.children[k]
    {
      var c := n.children[k];
      assert ChildConsistent(pol, c, k in pol.actions, k in sentinels);
      if Tagged(c, pol.folderTag) {
        ConsistentIsFixpoint(pol, c, {});
      }
    }
    assert r.children.Keys == n.children.Keys;
    assert r.children == n.children;
    assert r.attrs == n.attrs;
  }

  /** Restore is idempotent: restoring a restored folder again changes
      nothing. */
  lemma RestoreIdempotent(pol: Policy, n: Node, sentinels: set<string>)
    requires NoActionClash(pol, n)
    ensures RestoreFolder(pol, RestoreFolder(pol, n, sentinels), sentinels) == RestoreFolder(pol, n, sentinels)
  {
    RestoreConsistent(pol, n, sentinels);
    ConsistentIsFixpoint(pol, RestoreFolder(pol, n, sentinels), sentinels);
  }

  /** Both folder kinds tell folders from points. */
  predicate DistinctTags(pol: Policy) {
    pol.folderTag != pol.pointTag
  }

  /** A point child survives exactly when it is complete; a survivor has a
      default priority, 8 unless it had one, and is otherwise unchanged. */
  lemma PointRule(pol: Policy, n: Node, sentinels: set<string>, k: string)
    requires DistinctTags(pol)
    requires k in n.children && Tagged(n.children[k], pol.pointTag)
    ensures var r := RestoreFolder(pol, n, sentinels);
      && (k in r.children <==> Complete(pol, n.children[k]))
      && (k in r.children ==>
            r.children[k] == WithDefaultPriority(n.children[k]).(hasAction := n.children[k].hasAction || k in pol.actions))
  {
  }

  /** A child tagged neither way survives exactly when it has an action or
      is a status or event node of the root, and then it is unchanged. */
  lemma UntaggedRule(pol: Policy, n: Node, sentinels: set<string>, k: string)
    requires k in n.children && !Tagged(n.children[k], pol.folderTag) && !Tagged(n.children[k], pol.pointTag)
    ensures var r := RestoreFolder(pol, n, sentinels);
      var c := n.children[k];
      && (k in r.children <==> c.hasAction || k in pol.actions || k in sentinels)
      && (k in r.children ==> r.children[k] == c.(hasAction := c.hasAction || k in pol.actions))
  {
  }

  /** A folder child always survives, restored in turn with no protected
      children of its own. */
  lemma FolderRule(pol: Policy, n: Node, sentinels: set<string>, k: string)
    requires k in n.children && Tagged(n.children[k], pol.folderTag)
    ensures var r := RestoreFolder(pol, n, sentinels);
      && k in r.children
      && r.children[k] == RestoreFolder(pol, n.children[k], {}).(hasAction := n.children[k].hasAction || k in pol.actions)
  {
  }

  /** A device point needs object type, instance number, use COV and
      settable; a local point needs only object type and instance number. */
  lemma RequiredAttributes(c: Node)
    ensures Complete(DEVICE, c) <==>
      OBJECT_TYPE in c.attrs && INSTANCE_NUMBER in c.attrs && USE_COV in c.attrs && SETTABLE in c.attrs
    ensures Complete(LOCAL, c) <==> OBJECT_TYPE in c.attrs && INSTANCE_NUMBER in c.attrs
  {
  }

  /** A point child with only a type and an instance number: kept, with
      priority 8, by a local folder, pruned by a device folder. */
  lemma LocalPointNeedsLess(name: string)
    requires name !in DEVICE.actions
    ensures var pt := map[OBJECT_TYPE := Str("analog-value"), INSTANCE_NUMBER := Num(1)];
      var local := RestoreFolder(LOCAL, Node(map[], map[name := Node(pt[RESTORE_TYPE := Str(LOCAL.pointTag)], map[], false)], false), {});
      var device := RestoreFolder(DEVICE, Node(map[], map[name := Node(pt[RESTORE_TYPE := Str(DEVICE.pointTag)], map[], false)], false), {});
      && name in local.children
      && DEFAULT_PRIORITY in local.children[name].attrs && local.children[name].attrs[DEFAULT_PRIORITY] == Num(8)
      && name !in device.children
  {
    var pt := map[OBJECT_TYPE := Str("analog-value"), INSTANCE_NUMBER := Num(1)];
    var lc := Node(pt[RESTORE_TYPE := Str(LOCAL.pointTag)], map[], false);
    var dc := Node(pt[RESTORE_TYPE := Str(DEVICE.pointTag)], map[], false);
    PointRule(LOCAL, Node(map[], map[name := lc], false), {}, name);
    PointRule(DEVICE, Node(map[], map[name := dc], false), {}, name);
    assert USE_COV !in dc.attrs;
  }
}
