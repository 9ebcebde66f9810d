/** Restoring the link's connections from the last session
    (`BacnetLink.restoreLastSession`): every child of the link node gets two
    attribute defaults, and is then rebuilt as an IP or a serial connection,
    kept without a connection, or pruned. */
module LinkRestore {
  import opened Wrappers
  import opened Decimal
  import opened Tree

  const REGISTER_FOREIGN := "register as foreign device in bbmd"
  const BBMD_LIST := "bbmd ips with network number"
  const BBMD_IP := "bbmd ip"
  const BBMD_PORT := "bbmd port"
  const DEFS := "defs"

  /** The attributes an IP connection needs. */
  const IP_ATTRS: set<string> := {"broadcast ip", "port", "local bind address"}

  /** The attributes a serial (MS/TP) connection needs. */
  const SERIAL_ATTRS: set<string> := {"comm port id", "baud rate", "this station id", "frame error retry count"}

  /** The attributes every connection needs. */
  const COMMON_ATTRS: set<string> :=
    {"local network number", "strict device comparisons", "Timeout", "segment timeout", "segment window",
     "retries", "local device id", "local device name", "local device vendor", "default polling interval"}

  datatype Transport = Ip | Serial

  /** What the restore does with one child. */
  datatype Verdict = Connect(transport: Transport) | KeepIdle | Prune

  /** `Value.getString()` as it appears in a string concatenation: a
      string value's text, and "null" for a value of any other type. */
  function GetString(v: Value): (s: string)
    ensures v.Str? ==> s == v.s
    ensures !v.Str? ==> s == "null"
  {
    match v
    case Str(s) => s
    case _ => "null"
  }

  /** `Value.getNumber().toString()`: a number's decimal text, or `None`
      when the value is not a number and `getNumber()` gives null, which
      the call on it turns into a `NullPointerException`. */
  function NumberText(v: Value): (r: Option<string>)
    ensures r.Some? <==> v.Num?
    ensures v.Num? ==> r == Some(IntToString(v.n))
  {
    match v
    case Num(n) => Some(IntToString(n))
    case _ => None
  }

  /** Whether migrating a child's legacy bbmd attributes throws: the bbmd
      list is missing, both legacy attributes exist, and the port is not a
      number. */
  predicate PortThrows(c: Node) {
    BBMD_LIST !in c.attrs && BBMD_IP in c.attrs && BBMD_PORT in c.attrs && !c.attrs[BBMD_PORT].Num?
  }

  /** The two defaults every child gets, whatever its verdict: "register as
      foreign device in bbmd" is false unless set, and the bbmd list, unless
      set, is made from the legacy bbmd ip and port or is " ". `None` when
      the migration throws. */
  function Prepare(c: Node): (r: Option<Node>)
    ensures r.None? <==> PortThrows(c)
    ensures r.Some? ==> REGISTER_FOREIGN in r.value.attrs && BBMD_LIST in r.value.attrs
    ensures r.Some? ==> r.value.attrs.Keys == c.attrs.Keys + {REGISTER_FOREIGN, BBMD_LIST}
    ensures r.Some? ==> forall k :: k in c.attrs ==> r.value.attrs[k] == c.attrs[k]
    ensures r.Some? && REGISTER_FOREIGN !in c.attrs ==> r.value.attrs[REGISTER_FOREIGN] == Bool(false)
    ensures r.Some? && BBMD_LIST !in c.attrs && BBMD_IP in c.attrs && BBMD_PORT in c.attrs ==>
      r.value.attrs[BBMD_LIST] == Str(GetString(c.attrs[BBMD_IP]) + ":" + IntToString(c.attrs[BBMD_PORT].n))
    ensures BBMD_LIST !in c.attrs && !(BBMD_IP in c.attrs && BBMD_PORT in c.attrs) ==>
      r.Some? && r.value.attrs[BBMD_LIST] == Str(" ")
    ensures r.Some? ==> r.value.children == c.children && r.value.hasAction == c.hasAction
  {
    var a := if REGISTER_FOREIGN in c.attrs then c.attrs else c.attrs[REGISTER_FOREIGN := Bool(false)];
    if BBMD_LIST in a then Some(c.(attrs := a))
    else if BBMD_IP in a && BBMD_PORT in a then
      match NumberText(a[BBMD_PORT])
      case Some(port) => Some(c.(attrs := a[BBMD_LIST := Str(GetString(a[BBMD_IP]) + ":" + port)]))
      case None => None
    else Some(c.(attrs := a[BBMD_LIST := Str(" ")]))
  }

  /** The verdict on a child named `name`. */
  function Judge(name: string, c: Node): Verdict {
    if COMMON_ATTRS <= c.attrs.Keys then
      if IP_ATTRS <= c.attrs.Keys then Connect(Ip)
      else if SERIAL_ATTRS <= c.attrs.Keys then Connect(Serial)
      else KeepIdle
    else if name != DEFS then Prune
    else KeepIdle
  }

  /** The link's children after the restore, and the connections it built,
      by child name. */
  datatype Restored = Restored(children: map<string, Node>, connections: map<string, Transport>)

  /** Whether some child's bbmd migration throws, which aborts the restore. */
  predicate Aborts(children: map<string, Node>) {
    exists k :: k in children && PortThrows(children[k])
  }

  /** The restore, or `None` when it aborts. */
  function RestoreLink(children: map<string, Node>): (r: Option<Restored>)
    ensures r.None? <==> Aborts(children)
    ensures r.Some? ==> r.value.children.Keys == set k | k in children && !Judge(k, children[k]).Prune?
    ensures r.Some? ==> r.value.connections.Keys <= r.value.children.Keys
    ensures r.Some? ==> forall k :: k in r.value.children ==> Some(r.value.children[k]) == Prepare(children[k])
  {
    if Aborts(children) then None
    else
      Some(Restored(map k | k in children && !Judge(k, children[k]).Prune? :: Prepare(children[k]).value,
                    map k | k in children && Judge(k, children[k]).Connect? :: Judge(k, children[k]).transport))
  }

  /** Unless the restore aborts, a child is kept exactly when it has every
      common attribute or is named "defs"; it gets a connection exactly
      when it has every common attribute and a complete transport, IP
      taking precedence over serial. */
  lemma ConnectionRule(children: map<string, Node>, k: string)
    requires k in children
    ensures RestoreLink(children).Some? ==>
      var r := RestoreLink(children).value;
      var keys := children[k].attrs.Keys;
      && (k in r.children <==> COMMON_ATTRS <= keys || k == DEFS)
      && (k in r.connections <==> COMMON_ATTRS <= keys && (IP_ATTRS <= keys || SERIAL_ATTRS <= keys))
      && (k in r.connections ==> (r.connections[k] == Ip <==> IP_ATTRS <= keys))
  {
  }

  /** The attributes the restore adds are none that decide a verdict. */
  lemma {:induction false} PrepareKeepsVerdict(name: string, c: Node)
    ensures Prepare(c).Some? ==> Judge(name, Prepare(c).value) == Judge(name, c)
  {
    var added := {REGISTER_FOREIGN, BBMD_LIST};
    ShorterThan(COMMON_ATTRS, added);
    ShorterThan(IP_ATTRS, added);
    ShorterThan(SERIAL_ATTRS, added);
    SubsetIgnoresOthers(COMMON_ATTRS, c.attrs.Keys, added);
    SubsetIgnoresOthers(IP_ATTRS, c.attrs.Keys, added);
    SubsetIgnoresOthers(SERIAL_ATTRS, c.attrs.Keys, added);
  }

  /** Every deciding attribute name is shorter than the two added ones. */
  lemma ShorterThan(names: set<string>, added: set<string>)
    requires names == COMMON_ATTRS || names == IP_ATTRS || names == SERIAL_ATTRS
    requires added == {REGISTER_FOREIGN, BBMD_LIST}
    ensures names !! added
  {
    assert |REGISTER_FOREIGN| == 34 && |BBMD_LIST| == 28;
    forall x | x in names
      ensures |x| < 28
    {
    }
  }

  lemma SubsetIgnoresOthers(need: set<string>, have: set<string>, extra: set<string>)
    requires need !! extra
    ensures need <= have + extra <==> need <= have
  {
  }

  /** A prepared child is its own preparation and keeps its verdict. */
  lemma PreparedIsFixpoint(name: string, c: Node)
    ensures Prepare(c).Some? ==>
      var p := Prepare(c).value;
      !PortThrows(p) && Prepare(p) == Some(p) && Judge(name, p) == Judge(name, c)
  {
    if Prepare(c).Some? {
      var p := Prepare(c).value;
      PrepareKeepsVerdict(name, c);
      assert Prepare(p).value.attrs == p.attrs;
    }
  }

  /** Restoring the link twice is restoring it once: same children, same
      connections; the restored children never abort a second restore. */
  lemma RestoreLinkIdempotent(children: map<string, Node>)
    ensures RestoreLink(children).Some? ==> RestoreLink(RestoreLink(children).value.children) == RestoreLink(children)
  {
    if RestoreLink(children).Some? {
      var r := RestoreLink(children).value;
      forall k | k in r.children
        ensures !PortThrows(r.children[k])
        ensures Judge(k, r.children[k]) == Judge(k, children[k])
        ensures Prepare(r.children[k]) == Some(r.children[k])
      {
        PreparedIsFixpoint(k, children[k]);
      }
      assert !Aborts(r.children);
      var r2 := RestoreLink(r.children).value;
      assert r2.children == r.children;
      assert r2.connections == r.connections;
    }
  }
}
