/** The link's node tree as the restore and edit logic sees it: each node
    has an attribute map, named children and possibly an action. */
module Tree {
  /** An attribute value. */
  datatype Value = Str(s: string) | Num(n: int) | Bool(b: bool)

  /** A node. `hasAction` marks a node that carries an action, and the
      saved form (`Persist`) drops such nodes as not serializable. The
      action nodes the folders create are marked so; the local folder's
      "edit" action put on an already existing child is the one case that
      is not, and the model treats it like the others. */
  datatype Node = Node(attrs: map<string, Value>, children: map<string, Node>, hasAction: bool)

  const RESTORE_TYPE := "restore type"
  const OBJECT_TYPE := "object type"
  const INSTANCE_NUMBER := "object instance number"
  const USE_COV := "use COV"
  const SETTABLE := "settable"
  const DEFAULT_PRIORITY := "default priority"

  /** A node freshly built by `createChild(name).build()`. */
  const EMPTY: Node := Node(map[], map[], false)

  /** An action child built by a folder's constructor. */
  const ACTION: Node := Node(map[], map[], true)

  /** Whether `n` has attribute `key` with value `v`. */
  predicate HasAttr(n: Node, key: string, v: Value) {
    key in n.attrs && n.attrs[key] == v
  }

  /** Whether `n`'s restore type is the string `tag`. */
  predicate Tagged(n: Node, tag: string) {
    HasAttr(n, RESTORE_TYPE, Str(tag))
  }

  /** `createChild(name).build()`: the existing child of that name, or a new
      empty one. Returns the parent after the call and the child. */
  function CreateChild(parent: Node, name: string): (r: (Node, Node))
    ensures name in r.0.children && r.0.children[name] == r.1
    ensures r.0.attrs == parent.attrs && r.0.hasAction == parent.hasAction
    ensures r.0.children.Keys == parent.children.Keys + {name}
    ensures forall k :: k in parent.children ==> r.0.children[k] == parent.children[k]
    ensures name !in parent.children ==> r.1 == EMPTY
  {
    if name in parent.children then (parent, parent.children[name])
    else (parent.(children := parent.children[name := EMPTY]), EMPTY)
  }

  /** `removeChild`: the parent without the named child. */
  function RemoveChild(parent: Node, name: string): (r: Node)
    ensures r.attrs == parent.attrs && r.hasAction == parent.hasAction
    ensures r.children.Keys == parent.children.Keys - {name}
    ensures forall k :: k in r.children ==> r.children[k] == parent.children[k]
  {
    parent.(children := parent.children - {name})
  }

  /** Whether no node of the tree carries an action. */
  predicate ActionFree(n: Node) {
    !n.hasAction && forall k :: k in n.children ==> ActionFree(n.children[k])
  }

  /** What the link serializer keeps of a node: everything but the nodes
      marked not serializable, which are exactly the action nodes. */
  function Persist(n: Node): (r: Node)
    ensures ActionFree(r)
    ensures r.attrs == n.attrs
    ensures r.children.Keys == set k | k in n.children && !n.children[k].hasAction
  {
    Node(n.attrs, map k | k in n.children && !n.children[k].hasAction :: Persist(n.children[k]), false)
  }

  /** A tree with no action node is saved as it is. */
  lemma {:induction false} PersistActionFree(n: Node)
    requires ActionFree(n)
    ensures Persist(n) == n
  {
    forall k | k in n.children
      ensures Persist(n.children[k]) == n.children[k]
    {
      PersistActionFree(n.children[k]);
    }
    assert Persist(n).children == n.children;
  }

  /** The saved form of one child: dropped when it is an action node,
      otherwise that child's own saved form. */
  lemma PersistChild(n: Node, name: string)
    requires name in n.children
    ensures name in Persist(n).children <==> !n.children[name].hasAction
    ensures name in Persist(n).children ==> Persist(n).children[name] == Persist(n.children[name])
  {
  }

  /** Saving a saved tree again changes nothing. */
  lemma PersistIdempotent(n: Node)
    ensures Persist(Persist(n)) == Persist(n)
  {
    PersistActionFree(Persist(n));
  }
}
