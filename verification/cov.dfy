/** Change-of-value (COV) handling: the per-point listener that buffers the
    latest notification (`DeviceFolder.CovListener`), the settings a COV
    subscription is sent with (`DeviceFolder.setupCov`), and the choice
    between COV and polling when a point's node is subscribed
    (`BacnetLink.setupPoint`/`setupNode`). */
module Cov {
  import opened Wrappers
  import opened Decimal
  import opened BacnetTypes
  import opened Tree

  /** The property values one notification carries. */
  type Notification = seq<(PropertyId, Wire)>

  /** A point's listener: its object and a buffer of capacity one. */
  datatype Listener = Listener(point: ObjectId, slot: Option<Notification>)

  /** One notification as delivered: the initiating device, the monitored
      object and the values. */
  datatype Event = Event(initiating: ObjectId, monitored: ObjectId, values: Notification)

  /** Whether an event is for this listener: it comes from the folder's
      remote device, once that is resolved, and is about the point's
      object. */
  predicate Matches(remote: Option<ObjectId>, l: Listener, e: Event) {
    remote == Some(e.initiating) && e.monitored == l.point
  }

  /** `covNotificationReceived`: a matching notification replaces whatever
      the buffer held; any other is ignored. */
  function Receive(remote: Option<ObjectId>, l: Listener, e: Event): (r: Listener)
    ensures r.point == l.point
    ensures Matches(remote, l, e) ==> r.slot == Some(e.values)
    ensures !Matches(remote, l, e) ==> r == l
  {
    if remote.Some? && remote.value == e.initiating && l.point == e.monitored then l.(slot := Some(e.values)) else l
  }

  /** The consumer taking the buffered notification, if any. */
  function Drain(l: Listener): (r: (Option<Notification>, Listener))
    ensures r.0 == l.slot && r.1.slot.None? && r.1.point == l.point
  {
    (l.slot, l.(slot := None))
  }

  function ReceiveAll(remote: Option<ObjectId>, l: Listener, es: seq<Event>): Listener
    decreases |es|
  {
    if |es| == 0 then l else Receive(remote, ReceiveAll(remote, l, es[..|es| - 1]), es[|es| - 1])
  }

  /** The values of the last event in `es` that is for `point`, if any. */
  function LastMatch(remote: Option<ObjectId>, point: ObjectId, es: seq<Event>): Option<Notification>
    decreases |es|
  {
    if |es| == 0 then None
    else if Matches(remote, Listener(point, None), es[|es| - 1]) then Some(es[|es| - 1].values)
    else LastMatch(remote, point, es[..|es| - 1])
  }

  /** Latest wins: after any run of notifications the buffer holds the last
      one meant for the point, or what it held before when none was. */
  lemma {:induction false} LatestWins(remote: Option<ObjectId>, l: Listener, es: seq<Event>)
    ensures ReceiveAll(remote, l, es).point == l.point
    ensures ReceiveAll(remote, l, es).slot == if LastMatch(remote, l.point, es).Some? then LastMatch(remote, l.point, es) else l.slot
    decreases |es|
  {
    if |es| > 0 {
      LatestWins(remote, l, es[..|es| - 1]);
    }
  }

  /** Before the remote device is resolved nothing is buffered. */
  lemma NothingBeforeRemote(l: Listener, es: seq<Event>)
    ensures ReceiveAll(None, l, es) == l
  {
    LatestWins(None, l, es);
    assert LastMatch(None, l.point, es) == None by {
      NoMatchWithoutRemote(l.point, es);
    }
  }

  lemma {:induction false} NoMatchWithoutRemote(point: ObjectId, es: seq<Event>)
    ensures LastMatch(None, point, es) == None
    decreases |es|
  {
    if |es| > 0 {
      NoMatchWithoutRemote(point, es[..|es| - 1]);
    }
  }

  /** The COV usage modes of a device. */
  datatype CovType = NONE | UNCONFIRMED | CONFIRMED

  /** `CovType.valueOf` of the root's "cov usage" attribute; a missing
      attribute, a value that is not a string or a string that names no mode
      throws, and the exception leaves the mode NONE. */
  function ParseCovUsage(attr: Option<Value>): (t: CovType)
    ensures t != NONE ==> attr.Some? && attr.value.Str?
    ensures attr == Some(Str("CONFIRMED")) <==> t == CONFIRMED
    ensures attr == Some(Str("UNCONFIRMED")) <==> t == UNCONFIRMED
  {
    match attr
    case Some(Str(s)) =>
      if s == "CONFIRMED" then CONFIRMED else if s == "UNCONFIRMED" then UNCONFIRMED else NONE
    case _ => NONE
  }

  /** What `setupCov` does for a point. */
  datatype CovPlan = NoSubscription | Subscribe(confirmed: bool, lifetimeSeconds: nat) | Throws

  /** `setupCov`: nothing before the remote device is resolved or when the
      mode is NONE; otherwise a subscription, confirmed in CONFIRMED mode,
      whose lifetime is the "cov lease time (minutes)" attribute times 60 in
      32-bit arithmetic. A missing or non-numeric lease, or a negative
      lifetime, makes the request's construction throw. */
  function SetupCov(remote: Option<ObjectId>, usage: Option<Value>, leaseMinutes: Option<Value>): (r: CovPlan)
    ensures remote.None? || ParseCovUsage(usage) == NONE ==> r == NoSubscription
    ensures r.Subscribe? ==> (r.confirmed <==> usage == Some(Str("CONFIRMED")))
    ensures r.Subscribe? ==> leaseMinutes.Some? && leaseMinutes.value.Num?
    ensures r.Subscribe? && 0 <= leaseMinutes.value.n && 60 * leaseMinutes.value.n < TWO_31 ==>
      r.lifetimeSeconds == 60 * leaseMinutes.value.n
    ensures remote.Some? && ParseCovUsage(usage) != NONE && !(leaseMinutes.Some? && leaseMinutes.value.Num?) ==>
      r == Throws
    ensures remote.Some? && ParseCovUsage(usage) != NONE && leaseMinutes.Some? && leaseMinutes.value.Num? ==>
      var m := leaseMinutes.value.n;
      && (0 <= m && 60 * m < TWO_31 ==> r == Subscribe(usage == Some(Str("CONFIRMED")), 60 * m))
      && (-TWO_31 <= 60 * m < 0 ==> r == Throws)
  {
    var ct := ParseCovUsage(usage);
    if remote.None? || ct == NONE then NoSubscription
    else match leaseMinutes
      case Some(Num(m)) =>
        var lifetime := JavaInt32(60 * JavaInt32(m));
        if lifetime < 0 then Throws else Subscribe(ct == CONFIRMED, lifetime)
      case _ => Throws
  }

  /** Whether a subscribed node uses COV: the root's mode is not NONE (a
      mode the root does not have counts as not NONE) and the point opts in. */
  function UsesCov(rootMode: Option<CovType>, pointCov: bool): (b: bool)
    ensures b <==> rootMode != Some(NONE) && pointCov
  {
    match rootMode
    case Some(NONE) => false
    case _ => pointCov
  }

  /** The nodes `setupPoint` installs subscription handlers on: the point's
      own node (0) and its "present value" child (1), unless the local
      device is gone, in which case the connection is stopped instead. */
  function SetupPoint(localDeviceUp: bool): (r: seq<nat>)
    ensures localDeviceUp <==> r == [0, 1]
    ensures !localDeviceUp <==> r == []
  {
    if localDeviceUp then [0, 1] else []
  }

  /** The subscription a node's handler makes on subscribe: which node and
      whether with COV. Only nodes 0 and 1 have a handler. */
  function OnSubscribe(rootMode: Option<CovType>, pointCov: bool, index: nat): (r: Option<(nat, bool)>)
    ensures r.Some? <==> index <= 1
    ensures r.Some? ==> r.value == (index, UsesCov(rootMode, pointCov))
  {
    if index <= 1 then Some((index, UsesCov(rootMode, pointCov))) else None
  }

  /** Both nodes of a point subscribe the same way. */
  lemma NodesAgree(rootMode: Option<CovType>, pointCov: bool)
    ensures forall i :: 0 <= i < |SetupPoint(true)| ==>
      OnSubscribe(rootMode, pointCov, SetupPoint(true)[i]) == Some((i, rootMode != Some(NONE) && pointCov))
  {
  }
}
