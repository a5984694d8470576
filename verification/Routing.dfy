/** Recipient selection: destinations and the range predicates. */
module Routing {
  import opened Wrappers
  import opened Text
  import opened Model
  import opened State

  datatype RangePolicy = SourceRange | MessageRange

  function ActiveIds(s: NetworkState, exclude: Option<ConnectionId>): set<ConnectionId> {
    set id | id in s.sessions && s.sessions[id].phase.Active? && Some(id) != exclude
  }

  predicate HasClientType(x: Session, clientType: ClientType) {
    x.presence.Some? && x.presence.value.clientType == clientType
  }

  predicate IsPilotSide(x: Session) {
    HasClientType(x, Pilot) || HasClientType(x, Observer)
  }

  function ResolveDestination(
    config: CoreConfig, s: NetworkState, sender: ConnectionId, destination: Destination, policy: RangePolicy
  ): set<ConnectionId>
  {
    match destination
    case Server => {}
    case Direct(callsign) =>
      if callsign in s.callsigns && s.callsigns[callsign] != sender then {s.callsigns[callsign]} else {}
    case All => ActiveIds(s, Some(sender))
    case AllAtc =>
      set id | id in s.sessions && id != sender && s.sessions[id].phase.Active? && HasClientType(s.sessions[id], Atc)
    case Pilots =>
      set id | id in s.sessions && id != sender && s.sessions[id].phase.Active? && IsPilotSide(s.sessions[id])
    case Range(_) =>
      set id | id in s.sessions && id != sender && s.sessions[id].phase.Active?
               && InPolicyRange(config, s, sender, id, policy)
  }

  predicate InPolicyRange(
    config: CoreConfig, s: NetworkState, sender: ConnectionId, id: ConnectionId, policy: RangePolicy)
  {
    match policy
    case SourceRange => WithinSourceRange(config, s, sender, id)
    case MessageRange => WithinMessageRange(config, s, sender, id)
  }

  function PositionRecipients(config: CoreConfig, s: NetworkState, source: ConnectionId): set<ConnectionId> {
    set id | id in s.sessions && id != source && s.sessions[id].phase.Active?
             && WithinPositionRange(config, s, source, id)
  }

  function FlightPlanRecipients(
    config: CoreConfig, s: NetworkState, source: ConnectionId, range: real): set<ConnectionId>
  {
    set id | id in s.sessions && id != source && s.sessions[id].phase.Active? && HasClientType(s.sessions[id], Atc)
             && DistanceAtMost(config, s, source, id, range)
  }

  predicate DistanceAtMost(
    config: CoreConfig, s: NetworkState, source: ConnectionId, target: ConnectionId, range: real)
  {
    var distance := DistanceBetween(config, s, source, target);
    distance.Some? && distance.value <= range
  }

  /** The greatest integer whose square is at most `n`. */
  function IntegerSqrt(n: nat): (r: nat)
    ensures r * r <= n < (r + 1) * (r + 1)
  {
    if n == 0 then 0 else
    var r := IntegerSqrt(n - 1);
    if (r + 1) * (r + 1) <= n then r + 1 else r
  }

  function MaxInt(a: int, b: int): int {
    if a < b then b else a
  }

  function MaxReal(a: real, b: real): real {
    if a < b then b else a
  }

  /** The integer part of `10 + 1.414 * sqrt(altitude)` over the reals: the
      square of 1.414 is 1.999396, and a whole number `k` satisfies
      `k <= 1.414 * sqrt(a)` exactly when `k * k <= 1.999396 * a`. */
  function PilotRange(altitude: int): int {
    10 + IntegerSqrt(1999396 * MaxInt(altitude, 0) / 1000000)
  }

  function SessionRange(x: Session): real {
    if IsPilotSide(x) && x.position.Some? then PilotRange(x.position.value.altitude) as real
    else if x.position.Some? && x.position.value.AtcPosition? then
      match x.position.value.facilityType
      case 1 => 1500.0
      case 7 => 1500.0
      case 2 => 5.0
      case 3 => 5.0
      case 4 => 30.0
      case 5 => 100.0
      case 6 => 400.0
      case _ => 40.0
    else 40.0
  }

  function ToPoint(position: Position): Point {
    Point(
      if position.latitude.Finite? then position.latitude.value else 0.0,
      if position.longitude.Finite? then position.longitude.value else 0.0)
  }

  function DistanceBetween(
    config: CoreConfig, s: NetworkState, source: ConnectionId, target: ConnectionId): Option<real>
  {
    if source in s.sessions && s.sessions[source].position.Some?
       && target in s.sessions && s.sessions[target].position.Some?
    then
      Some(config.distance(
             ToPoint(s.sessions[source].position.value), ToPoint(s.sessions[target].position.value)))
    else None
  }

  predicate WithinPositionRange(config: CoreConfig, s: NetworkState, source: ConnectionId, target: ConnectionId) {
    if source !in s.sessions || target !in s.sessions then false else
    var distance := DistanceBetween(config, s, source, target);
    if distance.None? then false else
    var from, to := s.sessions[source], s.sessions[target];
    var permitted :=
      if HasClientType(to, Atc) then
        if to.position.Some? && to.position.value.AtcPosition?
        then MaxInt(to.position.value.visualRange, 0) as real
        else SessionRange(to)
      else if IsPilotSide(from) then SessionRange(from) + SessionRange(to)
      else MaxReal(SessionRange(from), SessionRange(to));
    distance.value <= permitted
  }

  predicate WithinMessageRange(config: CoreConfig, s: NetworkState, source: ConnectionId, target: ConnectionId) {
    if source !in s.sessions || target !in s.sessions then false else
    var distance := DistanceBetween(config, s, source, target);
    if distance.None? then false else
    var from, to := s.sessions[source], s.sessions[target];
    distance.value <=
      if IsPilotSide(from) && IsPilotSide(to) then SessionRange(from) + SessionRange(to)
      else MaxReal(SessionRange(from), SessionRange(to))
  }

  predicate WithinSourceRange(config: CoreConfig, s: NetworkState, source: ConnectionId, target: ConnectionId) {
    if source !in s.sessions then false else
    var distance := DistanceBetween(config, s, source, target);
    distance.Some? && distance.value <= SessionRange(s.sessions[source])
  }

  // ---------------------------------------------------------------- Routing soundness

  /** Only active sessions are chosen, and never the sender. A direct
      destination needs the index invariant for this: it tests no phase. */
  lemma ResolvedAreActivePeers(
    config: CoreConfig, s: NetworkState, sender: ConnectionId, destination: Destination, policy: RangePolicy)
    requires Inv(s)
    ensures ResolveDestination(config, s, sender, destination, policy) <= ActiveIds(s, Some(sender))
  {
    if destination.Direct? && destination.callsign in s.callsigns {
      assert SessionOk(s.callsigns[destination.callsign], s.sessions[s.callsigns[destination.callsign]]);
    }
  }

  /** A direct destination reaches exactly the other active session that
      presents the callsign. */
  lemma DirectReachesExactlyTheOwner(
    config: CoreConfig, s: NetworkState, sender: ConnectionId, callsign: Callsign, policy: RangePolicy,
    id: ConnectionId)
    requires Inv(s)
    ensures id in ResolveDestination(config, s, sender, Direct(callsign), policy) <==>
            id != sender && IsActive(s, id) && s.sessions[id].CallsignOf() == Some(callsign)
  {
    if id in s.sessions {
      assert SessionOk(id, s.sessions[id]);
    }
    if callsign in s.callsigns {
      assert SessionOk(s.callsigns[callsign], s.sessions[s.callsigns[callsign]]);
    }
  }

  /** `*` reaches the disjoint union of `*A` and `*P`. */
  lemma AllIsAtcAndPilots(config: CoreConfig, s: NetworkState, sender: ConnectionId, policy: RangePolicy)
    requires Inv(s)
    ensures var atc := ResolveDestination(config, s, sender, AllAtc, policy);
            var pilots := ResolveDestination(config, s, sender, Pilots, policy);
            atc !! pilots && ResolveDestination(config, s, sender, All, policy) == atc + pilots
  {
    forall id | id in s.sessions ensures SessionOk(id, s.sessions[id]) {}
  }

  // ---------------------------------------------------------------- Range laws

  ghost predicate IsDistance(distance: (Point, Point) -> real) {
    && (forall a, b :: distance(a, b) >= 0.0)
    && (forall a, b :: distance(a, b) == distance(b, a))
  }

  lemma {:induction false} IntegerSqrtMonotone(m: nat, n: nat)
    requires m <= n
    ensures IntegerSqrt(m) <= IntegerSqrt(n)
  {
    if m < n {
      IntegerSqrtMonotone(m, n - 1);
    }
  }

  /** Flying higher never shortens the range. */
  lemma PilotRangeMonotone(low: int, high: int)
    requires low <= high
    ensures 10 <= PilotRange(low) <= PilotRange(high)
  {
    IntegerSqrtMonotone(
      1999396 * MaxInt(low, 0) / 1000000, 1999396 * MaxInt(high, 0) / 1000000);
  }

  /** `PilotRange` is the integer part of the real formula: for any real root
      of the altitude, it is the whole number just below `10 + 1.414 * root`. */
  lemma PilotRangeIsTheIntegerPart(altitude: int, root: real)
    requires root >= 0.0 && root * root == MaxInt(altitude, 0) as real
    ensures PilotRange(altitude) as real <= 10.0 + 1.414 * root < (PilotRange(altitude) + 1) as real
  {
    hide IntegerSqrt;
    var a := MaxInt(altitude, 0);
    var n := 1999396 * a / 1000000;
    var r := IntegerSqrt(n);
    var square := 1.999396 * (a as real);
    assert 1000000 * n <= 1999396 * a < 1000000 * (n + 1);
    assert n as real <= square < (n + 1) as real;
    SquareOfProduct(root, a as real);
    SquareOrder(r, 1.414 * root);
    SquareOrder(r + 1, 1.414 * root);
    SquareOfInteger(r);
    SquareOfInteger(r + 1);
  }

  lemma SquareOfProduct(root: real, a: real)
    requires root * root == a
    ensures (1.414 * root) * (1.414 * root) == 1.999396 * a
  {
    assert (1.414 * root) * (1.414 * root) == 1.414 * 1.414 * (root * root);
  }

  lemma SquareOfInteger(k: nat)
    ensures (k * k) as real == (k as real) * (k as real)
  {
  }

  lemma ProductOrder(a: real, b: real, c: real)
    requires c > 0.0
    ensures a <= b <==> a * c <= b * c
  {
    assert (b - a) * c == b * c - a * c;
  }

  /** Squares order non-negative numbers as the numbers themselves. */
  lemma SquareOrder(k: nat, x: real)
    requires x >= 0.0
    ensures (k as real) * (k as real) <= x * x <==> k as real <= x
  {
    var y := k as real;
    assert x * y == y * x;
    if y == 0.0 {
      assert y * y == 0.0;
    } else if x == 0.0 {
      ProductOrder(y, 0.0, y);
    } else {
      ProductOrder(y, x, y);
      ProductOrder(y, x, x);
    }
  }

  lemma SessionRangeAtLeastFive(x: Session)
    ensures SessionRange(x) >= 5.0
  {
    if IsPilotSide(x) && x.position.Some? {
      PilotRangeMonotone(x.position.value.altitude, x.position.value.altitude);
    }
  }

  /** The whole table. A pilot or observer with a position: the integer part of
      `10 + 1.414 * sqrt(altitude)`, where `root` is the root of the altitude. A
      controller with a position: by its facility. Everybody else: 40. */
  lemma SessionRangeExactly(x: Session, root: real)
    ensures var range := SessionRange(x);
            if x.position.None? then range == 40.0
            else if IsPilotSide(x) then
              root >= 0.0 && root * root == MaxInt(x.position.value.altitude, 0) as real ==>
                range <= 10.0 + 1.414 * root < range + 1.0
            else if x.position.value.PilotPosition? then range == 40.0
            else
              var f: int := x.position.value.facilityType;
              && (f == 1 || f == 7 ==> range == 1500.0)
              && (f == 2 || f == 3 ==> range == 5.0)
              && (f == 4 ==> range == 30.0)
              && (f == 5 ==> range == 100.0)
              && (f == 6 ==> range == 400.0)
              && (f < 1 || f > 7 ==> range == 40.0)
  {
    if x.position.Some? && IsPilotSide(x) && root >= 0.0
       && root * root == MaxInt(x.position.value.altitude, 0) as real
    {
      hide PilotRange;
      PilotRangeIsTheIntegerPart(x.position.value.altitude, root);
    }
  }

  lemma SourceRangeWithinMessageRange(
    config: CoreConfig, s: NetworkState, sender: ConnectionId, range: Bytes)
    ensures ResolveDestination(config, s, sender, Range(range), SourceRange)
            <= ResolveDestination(config, s, sender, Range(range), MessageRange)
  {
    forall id | id in s.sessions && WithinSourceRange(config, s, sender, id)
      ensures WithinMessageRange(config, s, sender, id)
    {
      SessionRangeAtLeastFive(s.sessions[id]);
    }
  }

  lemma MessageRangeSymmetric(config: CoreConfig, s: NetworkState, a: ConnectionId, b: ConnectionId)
    requires IsDistance(config.distance)
    ensures WithinMessageRange(config, s, a, b) <==> WithinMessageRange(config, s, b, a)
  {
  }

  /** For a target that is no controller, hearing a position and hearing a
      range message are the same condition. */
  lemma PositionRangeIsMessageRange(config: CoreConfig, s: NetworkState, a: ConnectionId, b: ConnectionId)
    requires Inv(s)
    requires b in s.sessions && !HasClientType(s.sessions[b], Atc)
    ensures WithinPositionRange(config, s, a, b) <==> WithinMessageRange(config, s, a, b)
  {
    assert SessionOk(b, s.sessions[b]);
  }

  /** A position is heard by active peers only, and by those that are no
      controllers exactly when they would hear a range message. */
  lemma PositionHeardLikeMessages(config: CoreConfig, s: NetworkState, source: ConnectionId, range: Bytes)
    requires Inv(s)
    ensures PositionRecipients(config, s, source) <= ActiveIds(s, Some(source))
    ensures forall id :: id in s.sessions && !HasClientType(s.sessions[id], Atc) ==>
              (id in PositionRecipients(config, s, source) <==>
                 id in ResolveDestination(config, s, source, Range(range), MessageRange))
  {
    forall id | id in s.sessions && !HasClientType(s.sessions[id], Atc)
      ensures WithinPositionRange(config, s, source, id) <==> WithinMessageRange(config, s, source, id)
    {
      PositionRangeIsMessageRange(config, s, source, id);
    }
  }

  /** A filed plan goes to controllers `*A` reaches, fewer for a shorter range,
      and to none while its owner has no position. */
  lemma FlightPlanReachesControllers(
    config: CoreConfig, s: NetworkState, source: ConnectionId, policy: RangePolicy, near: real, far: real)
    requires near <= far
    ensures FlightPlanRecipients(config, s, source, near) <= FlightPlanRecipients(config, s, source, far)
    ensures FlightPlanRecipients(config, s, source, far) <= ResolveDestination(config, s, source, AllAtc, policy)
    ensures source in s.sessions && s.sessions[source].position.None? ==>
              FlightPlanRecipients(config, s, source, far) == {}
  {
  }

  /** A controller target is judged by the visual range it reported itself:
      the fallback to its session range is never taken. */
  lemma ControllerHearsItsVisualRange(config: CoreConfig, s: NetworkState, a: ConnectionId, b: ConnectionId)
    requires Inv(s)
    requires b in s.sessions && HasClientType(s.sessions[b], Atc)
    requires DistanceBetween(config, s, a, b).Some?
    ensures s.sessions[b].position.Some? && s.sessions[b].position.value.AtcPosition?
            && s.sessions[b].position.value.visualRange >= 0
    ensures WithinPositionRange(config, s, a, b) <==>
            DistanceBetween(config, s, a, b).value <= s.sessions[b].position.value.visualRange as real
  {
    assert SessionOk(b, s.sessions[b]);
  }
}
