/** Cancel-confirm-replace of the protective pair of a position. Several calls
    may be in flight: each suspends between polls, and the broker removes orders
    when it likes or not at all. */
module IbkrProtection {
  import opened Common
  import opened IbkrRefs

  /** Seconds, in milliseconds as the clock below. */
  const CANCEL_TIMEOUT: int := 5000

  datatype Leg = Tp | Sl

  datatype Attachment = Attachment(trigger: int, limit: Option<int>)

  /** `attachment` is the order's prices as a leg of its side; absent when the
      trigger price is unset. */
  datatype Order = Order(ref: string, quantity: int, attachment: Option<Attachment>)

  datatype Request =
    | Modify(position: string, tp: Option<Attachment>, sl: Option<Attachment>)
    | Clear(position: string, clearTp: bool, clearSl: bool)

  datatype Failure = BadRequest | NotFound | VenueError | NotConfirmed

  /** What a call does once its cancels are confirmed. */
  datatype Plan = Place(tp: Option<Attachment>, sl: Option<Attachment>, quantity: int) | Return | RaiseNotFound

  datatype Call =
    | Waiting(position: string, tpSide: bool, slSide: bool, deadline: int, plan: Plan)
    | Placed
    | Cleared
    | Raised(failure: Failure)

  /** `live` is the list of open trades; `cancels` every cancel request so far,
      with the position its call was about. */
  datatype State = State(
    live: seq<Order>, positions: map<string, int>, calls: seq<Call>, cancels: seq<(string, string)>)

  function Prefix(position: string, leg: Leg): string {
    if leg.Tp? then TpPrefix(position) else SlPrefix(position)
  }

  predicate Owned(ref: string, position: string, leg: Leg) {
    StartsWith(ref, Prefix(position, leg))
  }

  /** The live protective orders of one side of a position. */
  function Legs(live: seq<Order>, position: string, leg: Leg): seq<Order> {
    if live == [] then []
    else
      var front, last := Legs(live[..|live| - 1], position, leg), live[|live| - 1];
      if Owned(last.ref, position, leg) then front + [last] else front
  }

  function Picked(o: Order, position: string, tpSide: bool, slSide: bool): seq<Order> {
    (if tpSide && Owned(o.ref, position, Tp) then [o] else []) + (if slSide && Owned(o.ref, position, Sl) then [o] else [])
  }

  /** The live orders of the named sides, as a call lists them. */
  function Matching(live: seq<Order>, position: string, tpSide: bool, slSide: bool): seq<Order> {
    if live == [] then []
    else Matching(live[..|live| - 1], position, tpSide, slSide) + Picked(live[|live| - 1], position, tpSide, slSide)
  }

  lemma {:induction false} NothingMatches(live: seq<Order>, position: string, tpSide: bool, slSide: bool)
    ensures Matching(live, position, tpSide, slSide) == [] <==>
              (tpSide ==> Legs(live, position, Tp) == []) && (slSide ==> Legs(live, position, Sl) == [])
  {
    if live != [] { NothingMatches(live[..|live| - 1], position, tpSide, slSide); }
  }

  lemma {:induction false} MatchingIsOwned(live: seq<Order>, position: string, tpSide: bool, slSide: bool, i: nat)
    requires i < |Matching(live, position, tpSide, slSide)|
    ensures var ref := Matching(live, position, tpSide, slSide)[i].ref;
            (tpSide && Owned(ref, position, Tp)) || (slSide && Owned(ref, position, Sl))
  {
    var n := |live| - 1;
    if i < |Matching(live[..n], position, tpSide, slSide)| { MatchingIsOwned(live[..n], position, tpSide, slSide, i); }
  }

  lemma MatchingAt(live: seq<Order>, i: nat, position: string, tpSide: bool, slSide: bool)
    requires i < |live|
    ensures Matching(live[..i + 1], position, tpSide, slSide) ==
            Matching(live[..i], position, tpSide, slSide) + Picked(live[i], position, tpSide, slSide)
  {
    assert live[..i + 1][..i] == live[..i];
  }

  /** The two prefix tests of the listing loop. */
  method PickMatching(o: Order, position: string, tpSide: bool, slSide: bool) returns (picked: seq<Order>)
    ensures picked == Picked(o, position, tpSide, slSide)
  {
    picked := [];
    if tpSide && Owned(o.ref, position, Tp) { picked := picked + [o]; }
    if slSide && Owned(o.ref, position, Sl) { picked := picked + [o]; }
  }

  /** The matching list of a poll, built in a loop over the open trades. */
  method ListMatching(live: seq<Order>, position: string, tpSide: bool, slSide: bool) returns (matching: seq<Order>)
    ensures matching == Matching(live, position, tpSide, slSide)
  {
    matching := [];
    for i := 0 to |live|
      invariant matching == Matching(live[..i], position, tpSide, slSide)
    {
      MatchingAt(live, i, position, tpSide, slSide);
      var picked := PickMatching(live[i], position, tpSide, slSide);
      matching := matching + picked;
    }
    assert live[..|live|] == live;
  }

  /** What a read-back finds for a side: its last live order with a trigger. */
  function Current(live: seq<Order>, position: string, leg: Leg): Option<Attachment> {
    if live == [] then None
    else
      var last := live[|live| - 1];
      if Owned(last.ref, position, leg) && last.attachment.Some? then last.attachment
      else Current(live[..|live| - 1], position, leg)
  }

  predicate IsOpen(positions: map<string, int>, position: string) {
    position in positions && positions[position] != 0
  }

  /** The read-back: nothing for a flat or absent position, else both sides. The
      prefixes of the two sides exclude each other. */
  method GetPositionTpSl(live: seq<Order>, positions: map<string, int>, position: string)
    returns (r: Option<(Option<Attachment>, Option<Attachment>)>)
    requires IsDigits(position)
    ensures r == if IsOpen(positions, position)
                 then Some((Current(live, position, Tp), Current(live, position, Sl))) else None
  {
    if position !in positions || positions[position] == 0 { return None; }
    var tp: Option<Attachment>, sl: Option<Attachment> := None, None;
    for i := 0 to |live|
      invariant tp == Current(live[..i], position, Tp) && sl == Current(live[..i], position, Sl)
    {
      assert live[..i + 1][..i] == live[..i];
      PrefixesAreDisjoint(live[i].ref, position, position);
      if StartsWith(live[i].ref, TpPrefix(position)) {
        if live[i].attachment.Some? { tp := live[i].attachment; }
      } else if StartsWith(live[i].ref, SlPrefix(position)) {
        if live[i].attachment.Some? { sl := live[i].attachment; }
      }
    }
    assert live[..|live|] == live;
    return Some((tp, sl));
  }

  // ---- Steps ----

  predicate WellFormed(r: Request) {
    match r
    case Modify(_, tp, sl) => (tp.Some? || sl.Some?) && (tp.Some? ==> tp.value.limit.None?)
    case Clear(_, clearTp, clearSl) => clearTp || clearSl
  }

  function Or(a: Option<Attachment>, b: Option<Attachment>): Option<Attachment> {
    if a.Some? then a else b
  }

  function PlanOf(s: State, r: Request): Plan {
    match r
    case Clear(_, _, _) => Return
    case Modify(p, tp, sl) =>
      if !IsOpen(s.positions, p) then RaiseNotFound
      else Place(Or(tp, Current(s.live, p, Tp)), Or(sl, Current(s.live, p, Sl)), -s.positions[p])
  }

  /** The synchronous head of a call: read back, then request the cancels.
      `accepted` says how many requests the session takes before one fails. */
  function Begin(s: State, r: Request, now: int, accepted: nat): State {
    if !WellFormed(r) then s.(calls := s.calls + [Raised(BadRequest)])
    else
      var tpSide, slSide := r.Modify? || r.clearTp, r.Modify? || r.clearSl;
      var targets := Matching(s.live, r.position, tpSide, slSide);
      var sent := if accepted < |targets| then accepted else |targets|;
      var call := if accepted < |targets| then Raised(VenueError)
                  else Waiting(r.position, tpSide, slSide, now + CANCEL_TIMEOUT, PlanOf(s, r));
      s.(calls := s.calls + [call], cancels := s.cancels + seq(sent, i requires 0 <= i < sent => (r.position, targets[i].ref)))
  }

  /** The replacement orders, take-profit first. */
  function Replacement(position: string, plan: Plan, tpSuffix: string, slSuffix: string): seq<Order>
    requires plan.Place?
  {
    (if plan.tp.Some? then [Order(TpPrefix(position) + tpSuffix, plan.quantity, plan.tp)] else [])
    + (if plan.sl.Some? then [Order(SlPrefix(position) + slSuffix, plan.quantity, plan.sl)] else [])
  }

  /** One poll of a waiting call, and what follows it without suspending: the
      orders of `plan` are written only when nothing matching is live. `listed`
      tells whether the poll could list, `written` how many orders it could place. */
  function Wake(s: State, c: nat, now: int, listed: bool, tpSuffix: string, slSuffix: string, written: nat): State
    requires c < |s.calls| && s.calls[c].Waiting?
  {
    var w := s.calls[c];
    if now >= w.deadline then s.(calls := s.calls[c := Raised(NotConfirmed)])
    else if !listed then s.(calls := s.calls[c := Raised(VenueError)])
    else if Matching(s.live, w.position, w.tpSide, w.slSide) != [] then s
    else
      match w.plan
      case Return => s.(calls := s.calls[c := Cleared])
      case RaiseNotFound => s.(calls := s.calls[c := Raised(NotFound)])
      case Place(_, _, _) =>
        var orders := Replacement(w.position, w.plan, tpSuffix, slSuffix);
        if written < |orders| then s.(live := s.live + orders[..written], calls := s.calls[c := Raised(VenueError)])
        else s.(live := s.live + orders, calls := s.calls[c := Placed])
  }

  datatype Op =
    | Begins(request: Request, now: int, accepted: nat)
    | Wakes(call: nat, now: int, listed: bool, tpSuffix: string, slSuffix: string, written: nat)
    | Removed(index: nat)
    | Foreign(order: Order)
    | Moved(position: string, quantity: int)

  function Without(live: seq<Order>, i: nat): seq<Order>
    requires i < |live|
  {
    live[..i] + live[i + 1..]
  }

  /** `Removed` is a confirmed cancel, a fill or an expiry; `Foreign` any order of
      someone else; `Moved` a position update. */
  function Step(s: State, op: Op): State {
    match op
    case Begins(r, now, accepted) => Begin(s, r, now, accepted)
    case Wakes(c, now, listed, tpSuffix, slSuffix, written) =>
      if c < |s.calls| && s.calls[c].Waiting? then Wake(s, c, now, listed, tpSuffix, slSuffix, written) else s
    case Removed(i) => if i < |s.live| then s.(live := Without(s.live, i)) else s
    case Foreign(o) => s.(live := s.live + [o])
    case Moved(p, q) => s.(positions := s.positions[p := q])
  }

  function Run(s: State, ops: seq<Op>): State
    decreases |ops|
  {
    if ops == [] then s else Run(Step(s, ops[0]), ops[1..])
  }

  /** Positions are named by their contract number, and nobody else writes
      protective references. */
  ghost predicate Civil(op: Op) {
    && (op.Moved? ==> IsDigits(op.position))
    && (op.Foreign? ==> !IsProtectionRef(op.order.ref))
  }

  // ---- Pairs never stack ----

  ghost predicate NoStack(live: seq<Order>) {
    forall p, leg :: IsDigits(p) ==> |Legs(live, p, leg)| <= 1
  }

  ghost predicate Valid(s: State) {
    && NoStack(s.live)
    && (forall p :: p in s.positions ==> IsDigits(p))
    && (forall c :: 0 <= c < |s.calls| && s.calls[c].Waiting? && s.calls[c].plan.Place? ==>
          IsDigits(s.calls[c].position) && s.calls[c].tpSide && s.calls[c].slSide)
  }

  lemma {:induction false} LegsConcat(a: seq<Order>, b: seq<Order>, p: string, leg: Leg)
    ensures Legs(a + b, p, leg) == Legs(a, p, leg) + Legs(b, p, leg)
  {
    if b == [] {
      assert a + b == a;
    } else {
      assert (a + b)[..|a + b| - 1] == a + b[..|b| - 1];
      LegsConcat(a, b[..|b| - 1], p, leg);
    }
  }

  lemma LegsOfOne(o: Order, p: string, leg: Leg)
    ensures Legs([o], p, leg) == if Owned(o.ref, p, leg) then [o] else []
  {
    assert [o][..0] == [];
  }

  lemma RemovalLegs(live: seq<Order>, i: nat, p: string, leg: Leg)
    requires i < |live|
    ensures |Legs(Without(live, i), p, leg)| <= |Legs(live, p, leg)|
  {
    var head, tail := live[..i], live[i + 1..];
    assert live == (head + [live[i]]) + tail;
    LegsConcat(head + [live[i]], tail, p, leg);
    LegsConcat(head, [live[i]], p, leg);
    LegsConcat(head, tail, p, leg);
  }

  lemma OwnRefIsOwned(position: string, leg: Leg, suffix: string)
    ensures Owned(Prefix(position, leg) + suffix, position, leg)
  {
    assert (Prefix(position, leg) + suffix)[..|Prefix(position, leg)|] == Prefix(position, leg);
  }

  /** A reference belongs to one side of one position at most. */
  lemma OneOwner(ref: string, p: string, q: string, a: Leg, b: Leg)
    requires IsDigits(p) && IsDigits(q) && Owned(ref, p, a) && Owned(ref, q, b)
    ensures p == q && a == b
  {
    PrefixesAreDisjoint(ref, p, q);
    PrefixesAreDisjoint(ref, q, p);
  }

  lemma ForeignIsUnowned(ref: string, p: string, leg: Leg)
    requires IsDigits(p) && !IsProtectionRef(ref)
    ensures !Owned(ref, p, leg)
  {
    if Owned(ref, p, leg) {
      var prefix := Prefix(p, leg);
      assert ref == prefix + ref[|prefix|..];
      OwnRefsAreRecognised(p, ref[|prefix|..]);
    }
  }

  lemma NewOrderLegs(position: string, leg: Leg, suffix: string, quantity: int, a: Option<Attachment>, p: string, l: Leg)
    requires IsDigits(position) && IsDigits(p)
    ensures var o := Order(Prefix(position, leg) + suffix, quantity, a);
            Legs([o], p, l) == if p == position && l == leg then [o] else []
  {
    var o := Order(Prefix(position, leg) + suffix, quantity, a);
    LegsOfOne(o, p, l);
    OwnRefIsOwned(position, leg, suffix);
    if Owned(o.ref, p, l) { OneOwner(o.ref, p, position, l, leg); }
  }

  /** The replacement holds one order per planned side, for its position only. */
  lemma ReplacementLegs(position: string, plan: Plan, tpSuffix: string, slSuffix: string, p: string, leg: Leg)
    requires plan.Place? && IsDigits(position) && IsDigits(p)
    ensures var legs := Legs(Replacement(position, plan, tpSuffix, slSuffix), p, leg);
            var wanted := if leg.Tp? then plan.tp else plan.sl;
            if p == position && wanted.Some?
            then |legs| == 1 && legs[0].attachment == wanted && legs[0].quantity == plan.quantity
            else legs == []
  {
    var tp := if plan.tp.Some? then [Order(TpPrefix(position) + tpSuffix, plan.quantity, plan.tp)] else [];
    var sl := if plan.sl.Some? then [Order(SlPrefix(position) + slSuffix, plan.quantity, plan.sl)] else [];
    LegsConcat(tp, sl, p, leg);
    if plan.tp.Some? { NewOrderLegs(position, Tp, tpSuffix, plan.quantity, plan.tp, p, leg); }
    if plan.sl.Some? { NewOrderLegs(position, Sl, slSuffix, plan.quantity, plan.sl, p, leg); }
  }

  /** A prefix holds no more orders of a side than the whole. */
  lemma {:induction false} LegsOfPrefix(orders: seq<Order>, n: nat, p: string, leg: Leg)
    requires n <= |orders|
    ensures |Legs(orders[..n], p, leg)| <= |Legs(orders, p, leg)|
    decreases |orders|
  {
    if n < |orders| {
      LegsOfPrefix(orders[..|orders| - 1], n, p, leg);
      assert orders[..|orders| - 1][..n] == orders[..n];
    } else {
      assert orders[..n] == orders;
    }
  }

  lemma PlacedLegs(
    live: seq<Order>, position: string, plan: Plan, tpSuffix: string, slSuffix: string, written: nat, p: string, leg: Leg)
    requires plan.Place? && IsDigits(position) && IsDigits(p) && Matching(live, position, true, true) == []
    requires |Legs(live, p, leg)| <= 1
    requires written <= |Replacement(position, plan, tpSuffix, slSuffix)|
    ensures |Legs(live + Replacement(position, plan, tpSuffix, slSuffix)[..written], p, leg)| <= 1
  {
    var orders := Replacement(position, plan, tpSuffix, slSuffix);
    NothingMatches(live, position, true, true);
    ReplacementLegs(position, plan, tpSuffix, slSuffix, p, leg);
    LegsOfPrefix(orders, written, p, leg);
    LegsConcat(live, orders[..written], p, leg);
  }

  lemma BeginValid(s: State, r: Request, now: int, accepted: nat)
    requires Valid(s)
    ensures Valid(Begin(s, r, now, accepted))
  {
  }

  lemma WakeValid(s: State, c: nat, now: int, listed: bool, tpSuffix: string, slSuffix: string, written: nat)
    requires Valid(s) && c < |s.calls| && s.calls[c].Waiting?
    ensures Valid(Wake(s, c, now, listed, tpSuffix, slSuffix, written))
  {
    var w, t := s.calls[c], Wake(s, c, now, listed, tpSuffix, slSuffix, written);
    if t.live != s.live {
      var orders := Replacement(w.position, w.plan, tpSuffix, slSuffix);
      var n := if written < |orders| then written else |orders|;
      assert orders[..|orders|] == orders;
      forall p, leg | IsDigits(p) ensures |Legs(t.live, p, leg)| <= 1 {
        PlacedLegs(s.live, w.position, w.plan, tpSuffix, slSuffix, n, p, leg);
      }
    }
  }

  lemma StepValid(s: State, op: Op)
    requires Valid(s) && Civil(op)
    ensures Valid(Step(s, op))
  {
    match op
    case Begins(r, now, accepted) => BeginValid(s, r, now, accepted);
    case Wakes(c, now, listed, tpSuffix, slSuffix, written) =>
      if c < |s.calls| && s.calls[c].Waiting? { WakeValid(s, c, now, listed, tpSuffix, slSuffix, written); }
    case Removed(i) =>
      if i < |s.live| {
        forall p, leg | IsDigits(p) ensures |Legs(Without(s.live, i), p, leg)| <= 1 { RemovalLegs(s.live, i, p, leg); }
      }
    case Foreign(o) =>
      forall p, leg | IsDigits(p) ensures |Legs(s.live + [o], p, leg)| <= 1 {
        ForeignIsUnowned(o.ref, p, leg);
        LegsConcat(s.live, [o], p, leg);
        LegsOfOne(o, p, leg);
      }
    case Moved(_, _) =>
  }

  /** From at most one take-profit and one stop-loss per position, every
      interleaving of modify and clear calls at their sleep points keeps at most
      one of each, whatever cancels the broker delays, refuses or ignores. */
  lemma {:induction false} PairsNeverStack(s: State, ops: seq<Op>)
    requires Valid(s) && forall i :: 0 <= i < |ops| ==> Civil(ops[i])
    ensures Valid(Run(s, ops))
    decreases |ops|
  {
    if ops != [] {
      StepValid(s, ops[0]);
      PairsNeverStack(Step(s, ops[0]), ops[1..]);
    }
  }

  // ---- Calls wait, raise or act on a confirmed clearing ----

  /** A call that places had nothing of its position live and its deadline ahead;
      one that finds an order live keeps waiting, then raises, and places nothing. */
  lemma PollDecides(s: State, c: nat, now: int, tpSuffix: string, slSuffix: string, written: nat)
    requires c < |s.calls| && s.calls[c].Waiting?
    ensures var w, t := s.calls[c], Wake(s, c, now, true, tpSuffix, slSuffix, written);
            && (t.calls[c] == Raised(NotConfirmed) <==> now >= w.deadline)
            && (t.calls[c] == w <==>
                (now < w.deadline
                 && ((w.tpSide && Legs(s.live, w.position, Tp) != []) || (w.slSide && Legs(s.live, w.position, Sl) != []))))
            && (t.live != s.live ==> w.plan.Place? && now < w.deadline)
            && (w.tpSide && t.live != s.live ==> Legs(s.live, w.position, Tp) == [])
            && (w.slSide && t.live != s.live ==> Legs(s.live, w.position, Sl) == [])
  {
    var w := s.calls[c];
    NothingMatches(s.live, w.position, w.tpSide, w.slSide);
  }

  /** An order the call asked to cancel is live in every state of the run. */
  ghost predicate Stuck(s: State, ops: seq<Op>, w: Call)
    requires w.Waiting?
    decreases |ops|
  {
    && Matching(s.live, w.position, w.tpSide, w.slSide) != []
    && (ops != [] ==> Stuck(Step(s, ops[0]), ops[1..], w))
  }

  ghost predicate PolledAfter(ops: seq<Op>, c: nat, deadline: int) {
    exists i :: 0 <= i < |ops| && ops[i].Wakes? && ops[i].call == c && ops[i].now >= deadline
  }

  lemma PolledRest(ops: seq<Op>, c: nat, deadline: int)
    requires ops != []
    ensures PolledAfter(ops, c, deadline) ==>
              (ops[0].Wakes? && ops[0].call == c && ops[0].now >= deadline) || PolledAfter(ops[1..], c, deadline)
  {
    if i :| 0 < i < |ops| && ops[i].Wakes? && ops[i].call == c && ops[i].now >= deadline {
      assert ops[1..][i - 1] == ops[i];
    }
  }

  /** A cancel that never takes effect makes the call raise once it is polled past
      its deadline; until then it waits, and it never places. */
  lemma {:induction false} StuckCancelRaises(s: State, ops: seq<Op>, c: nat)
    requires c < |s.calls| && s.calls[c].Waiting? && Stuck(s, ops, s.calls[c])
    ensures c < |Run(s, ops).calls|
    ensures Run(s, ops).calls[c] in {s.calls[c], Raised(NotConfirmed), Raised(VenueError)}
    ensures PolledAfter(ops, c, s.calls[c].deadline) ==> Run(s, ops).calls[c].Raised?
    decreases |ops|
  {
    if ops != [] {
      var t, op := Step(s, ops[0]), ops[0];
      assert c < |t.calls|;
      if t.calls[c] == s.calls[c] {
        StuckCancelRaises(t, ops[1..], c);
        PolledRest(ops, c, s.calls[c].deadline);
      } else {
        assert op.Wakes? && op.call == c;
        SettledStays(t, ops[1..], c);
      }
    }
  }

  /** The outcome of a finished call never changes. */
  lemma {:induction false} SettledStays(s: State, ops: seq<Op>, c: nat)
    requires c < |s.calls| && !s.calls[c].Waiting?
    ensures c < |Run(s, ops).calls| && Run(s, ops).calls[c] == s.calls[c]
    decreases |ops|
  {
    if ops != [] { SettledStays(Step(s, ops[0]), ops[1..], c); }
  }

  // ---- Cancels stay at home ----

  /** Every request is about an order of the position its call named. */
  ghost predicate CancelsOwn(cancels: seq<(string, string)>) {
    forall i :: 0 <= i < |cancels| ==> Owned(cancels[i].1, cancels[i].0, Tp) || Owned(cancels[i].1, cancels[i].0, Sl)
  }

  lemma BeginCancelsOwn(s: State, r: Request, now: int, accepted: nat)
    requires CancelsOwn(s.cancels)
    ensures CancelsOwn(Begin(s, r, now, accepted).cancels)
    ensures forall i :: |s.cancels| <= i < |Begin(s, r, now, accepted).cancels| ==>
              && Begin(s, r, now, accepted).cancels[i].0 == r.position
              && (r.Clear? && !r.clearTp ==> Owned(Begin(s, r, now, accepted).cancels[i].1, r.position, Sl))
              && (r.Clear? && !r.clearSl ==> Owned(Begin(s, r, now, accepted).cancels[i].1, r.position, Tp))
  {
    var t := Begin(s, r, now, accepted);
    var tpSide, slSide := r.Modify? || r.clearTp, r.Modify? || r.clearSl;
    forall i | |s.cancels| <= i < |t.cancels|
      ensures (tpSide && Owned(t.cancels[i].1, r.position, Tp)) || (slSide && Owned(t.cancels[i].1, r.position, Sl))
    {
      MatchingIsOwned(s.live, r.position, tpSide, slSide, i - |s.cancels|);
    }
  }

  /** A poll that cannot list the open orders raises, as not confirmed once the
      deadline has passed, and changes nothing else. */
  lemma FailedPollRaises(s: State, c: nat, now: int, tpSuffix: string, slSuffix: string, written: nat)
    requires c < |s.calls| && s.calls[c].Waiting?
    ensures Wake(s, c, now, false, tpSuffix, slSuffix, written) ==
            s.(calls := s.calls[c := Raised(if now >= s.calls[c].deadline then NotConfirmed else VenueError)])
  {
  }

  /** What others do shows at once: a foreign order is live, a removed one is not, and
      a position update is what the next call reads. */
  lemma OthersShowAtOnce(s: State, o: Order, i: nat, p: string, q: int)
    ensures Step(s, Foreign(o)).live == s.live + [o] && Step(s, Foreign(o)).calls == s.calls
    ensures i < |s.live| ==> Step(s, Removed(i)).live == s.live[..i] + s.live[i + 1..] && Step(s, Removed(i)).calls == s.calls
    ensures IsOpen(Step(s, Moved(p, q)).positions, p) <==> q != 0
    ensures q != 0 ==> Step(s, Moved(p, q)).positions[p] == q
  {
  }

  // ---- A call asks for every cancel it needs ----

  /** The request is about this side; a modify is about both. */
  predicate Names(r: Request, leg: Leg) {
    r.Modify? || (if leg.Tp? then r.clearTp else r.clearSl)
  }

  /** How many live orders stand in the way of a call. */
  function InTheWay(live: seq<Order>, r: Request): nat {
    (if Names(r, Tp) then |Legs(live, r.position, Tp)| else 0) + (if Names(r, Sl) then |Legs(live, r.position, Sl)| else 0)
  }

  lemma {:induction false} MatchingCount(live: seq<Order>, position: string, tpSide: bool, slSide: bool)
    ensures |Matching(live, position, tpSide, slSide)| ==
            (if tpSide then |Legs(live, position, Tp)| else 0) + (if slSide then |Legs(live, position, Sl)| else 0)
  {
    if live != [] { MatchingCount(live[..|live| - 1], position, tpSide, slSide); }
  }

  lemma PickedHas(o: Order, position: string, tpSide: bool, slSide: bool)
    requires (tpSide && Owned(o.ref, position, Tp)) || (slSide && Owned(o.ref, position, Sl))
    ensures o in Picked(o, position, tpSide, slSide)
  {
  }

  lemma {:induction false} MatchingHas(live: seq<Order>, i: nat, position: string, tpSide: bool, slSide: bool)
    requires i < |live| && live[i] in Picked(live[i], position, tpSide, slSide)
    ensures live[i] in Matching(live, position, tpSide, slSide)
  {
    if i < |live| - 1 { MatchingHas(live[..|live| - 1], i, position, tpSide, slSide); }
  }

  lemma AskedAt(s: State, r: Request, now: int, accepted: nat, i: nat)
    requires Begin(s, r, now, accepted).calls[|s.calls|].Waiting?
    requires i < |Matching(s.live, r.position, Names(r, Tp), Names(r, Sl))|
    ensures var asked := Begin(s, r, now, accepted).cancels[|s.cancels|..];
            i < |asked| && asked[i] == (r.position, Matching(s.live, r.position, Names(r, Tp), Names(r, Sl))[i].ref)
  {
  }

  /** A call that goes on to wait has asked for the cancel of every live order of
      the sides it is about. */
  lemma BeginAsksAll(s: State, r: Request, now: int, accepted: nat, o: Order, leg: Leg)
    requires Begin(s, r, now, accepted).calls[|s.calls|].Waiting?
    requires o in s.live && Names(r, leg) && Owned(o.ref, r.position, leg)
    ensures (r.position, o.ref) in Begin(s, r, now, accepted).cancels[|s.cancels|..]
  {
    var targets := Matching(s.live, r.position, Names(r, Tp), Names(r, Sl));
    var k :| 0 <= k < |s.live| && s.live[k] == o;
    PickedHas(o, r.position, Names(r, Tp), Names(r, Sl));
    MatchingHas(s.live, k, r.position, Names(r, Tp), Names(r, Sl));
    var i :| 0 <= i < |targets| && targets[i] == o;
    AskedAt(s, r, now, accepted, i);
  }

  /** How a call starts: refused when no side is given or the take-profit has a
      limit price, raised when the session takes fewer cancels than there are
      orders in the way, waiting for five seconds otherwise. */
  lemma BeginOutcome(s: State, r: Request, now: int, accepted: nat)
    ensures var t := Begin(s, r, now, accepted);
            var refused := if r.Modify? then (r.tp.None? && r.sl.None?) || (r.tp.Some? && r.tp.value.limit.Some?)
                           else !r.clearTp && !r.clearSl;
            && t.live == s.live && t.positions == s.positions
            && |t.calls| == |s.calls| + 1 && t.calls[..|s.calls|] == s.calls && t.cancels[..|s.cancels|] == s.cancels
            && (t.calls[|s.calls|] == Raised(BadRequest) <==> refused)
            && (refused ==> t.cancels == s.cancels)
            && (!refused && accepted < InTheWay(s.live, r) ==>
                  t.calls[|s.calls|] == Raised(VenueError) && |t.cancels| == |s.cancels| + accepted)
            && (!refused && accepted >= InTheWay(s.live, r) ==>
                  var w := t.calls[|s.calls|];
                  && |t.cancels| == |s.cancels| + InTheWay(s.live, r)
                  && w.Waiting? && w.position == r.position && w.deadline == now + CANCEL_TIMEOUT
                  && (w.tpSide <==> Names(r, Tp)) && (w.slSide <==> Names(r, Sl)))
  {
    MatchingCount(s.live, r.position, Names(r, Tp), Names(r, Sl));
  }

  /** What a call that waited does at the poll that finds nothing in its way: a clear
      returns; a modify of a flat or absent position raises, and of an open one
      writes its orders, in full or up to the one the venue refuses. */
  lemma ConfirmedOutcome(
    s: State, r: Request, now: int, accepted: nat, t: State, c: nat, later: int, tpSuffix: string, slSuffix: string, written: nat)
    requires Begin(s, r, now, accepted).calls[|s.calls|].Waiting?
    requires c < |t.calls| && t.calls[c] == Begin(s, r, now, accepted).calls[|s.calls|]
    requires later < t.calls[c].deadline && InTheWay(t.live, r) == 0
    ensures var after := Wake(t, c, later, true, tpSuffix, slSuffix, written);
            && (r.Clear? ==> after.calls[c] == Cleared && after.live == t.live)
            && (r.Modify? && !IsOpen(s.positions, r.position) ==>
                  after.calls[c] == Raised(NotFound) && after.live == t.live)
            && (r.Modify? && IsOpen(s.positions, r.position) ==>
                  var wanted := (if Or(r.tp, Current(s.live, r.position, Tp)).Some? then 1 else 0)
                                + (if Or(r.sl, Current(s.live, r.position, Sl)).Some? then 1 else 0);
                  && after.calls[c] == (if written < wanted then Raised(VenueError) else Placed)
                  && |after.live| == |t.live| + (if written < wanted then written else wanted))
  {
    MatchingCount(t.live, r.position, Names(r, Tp), Names(r, Sl));
  }

  lemma {:induction false} CancelsAreOwned(s: State, ops: seq<Op>)
    requires CancelsOwn(s.cancels)
    ensures CancelsOwn(Run(s, ops).cancels)
    decreases |ops|
  {
    if ops != [] {
      if ops[0].Begins? { BeginCancelsOwn(s, ops[0].request, ops[0].now, ops[0].accepted); }
      CancelsAreOwned(Step(s, ops[0]), ops[1..]);
    }
  }

  /** No run ever asks to cancel a protective order of another position. */
  lemma CancelsStayHome(s: State, ops: seq<Op>, i: nat, other: string, leg: Leg)
    requires s.cancels == [] && i < |Run(s, ops).cancels|
    requires IsDigits(Run(s, ops).cancels[i].0) && IsDigits(other) && other != Run(s, ops).cancels[i].0
    ensures !Owned(Run(s, ops).cancels[i].1, other, leg)
  {
    CancelsAreOwned(s, ops);
    var (position, ref) := Run(s, ops).cancels[i];
    if Owned(ref, other, leg) { OneOwner(ref, other, position, leg, if Owned(ref, position, Tp) then Tp else Sl); }
  }

  // ---- A single-side update is a merge ----

  /** When a modify call completes, however long it waited and whatever ran in
      between, the position holds the requested sides and the ones it read back. */
  lemma ModifyMerges(
    s: State, r: Request, now: int, accepted: nat, ops: seq<Op>,
    later: int, tpSuffix: string, slSuffix: string, written: nat, leg: Leg)
    requires Valid(s) && r.Modify? && forall i :: 0 <= i < |ops| ==> Civil(ops[i])
    requires var t, c := Run(Begin(s, r, now, accepted), ops), |s.calls|;
             && c < |t.calls| && t.calls[c].Waiting? && t.calls[c] == Begin(s, r, now, accepted).calls[c]
             && Wake(t, c, later, true, tpSuffix, slSuffix, written).calls[c] == Placed
    ensures var t := Run(Begin(s, r, now, accepted), ops);
            var after := Legs(Wake(t, |s.calls|, later, true, tpSuffix, slSuffix, written).live, r.position, leg);
            var wanted := Or(if leg.Tp? then r.tp else r.sl, Current(s.live, r.position, leg));
            && IsOpen(s.positions, r.position)
            && if wanted.Some?
               then |after| == 1 && after[0].attachment == wanted && after[0].quantity == -s.positions[r.position]
               else after == []
  {
    var t, c := Run(Begin(s, r, now, accepted), ops), |s.calls|;
    var w := t.calls[c];
    assert w.plan == PlanOf(s, r) && w.plan.Place? && w.position == r.position && w.tpSide && w.slSide;
    assert Matching(t.live, w.position, true, true) == [];
    NothingMatches(t.live, w.position, true, true);
    var orders := Replacement(w.position, w.plan, tpSuffix, slSuffix);
    ReplacementLegs(w.position, w.plan, tpSuffix, slSuffix, w.position, leg);
    LegsConcat(t.live, orders, w.position, leg);
  }

  // ---- What a returned clear promises ----

  /** The call, if it completes, writes that side of the position. */
  predicate Plans(c: Call, position: string, leg: Leg) {
    c.Waiting? && c.position == position && c.plan.Place? && (if leg.Tp? then c.plan.tp else c.plan.sl).Some?
  }

  /** Every call that would write that side has run out of time by `t0`. */
  ghost predicate NobodyWrites(calls: seq<Call>, position: string, leg: Leg, t0: int) {
    forall c :: 0 <= c < |calls| && Plans(calls[c], position, leg) ==> calls[c].deadline <= t0
  }

  /** The operation starts no call that asks for that side. */
  ghost predicate AsksNot(op: Op, position: string, leg: Leg) {
    op.Begins? && op.request.Modify? && op.request.position == position ==>
      (if leg.Tp? then op.request.tp else op.request.sl).None?
  }

  lemma UnplannedStaysGone(live: seq<Order>, w: Call, tpSuffix: string, slSuffix: string, written: nat, position: string, leg: Leg)
    requires w.Waiting? && w.plan.Place? && IsDigits(w.position) && IsDigits(position)
    requires Legs(live, position, leg) == [] && !Plans(w, position, leg)
    requires written <= |Replacement(w.position, w.plan, tpSuffix, slSuffix)|
    ensures Legs(live + Replacement(w.position, w.plan, tpSuffix, slSuffix)[..written], position, leg) == []
  {
    var orders := Replacement(w.position, w.plan, tpSuffix, slSuffix);
    ReplacementLegs(w.position, w.plan, tpSuffix, slSuffix, position, leg);
    LegsOfPrefix(orders, written, position, leg);
    LegsConcat(live, orders[..written], position, leg);
  }

  lemma WakeCalls(s: State, c: nat, now: int, listed: bool, tpSuffix: string, slSuffix: string, written: nat)
    requires c < |s.calls| && s.calls[c].Waiting?
    ensures var t := Wake(s, c, now, listed, tpSuffix, slSuffix, written);
            && |t.calls| == |s.calls|
            && forall i :: 0 <= i < |t.calls| && t.calls[i].Waiting? ==> t.calls[i] == s.calls[i]
  {
  }

  lemma WakeKeepsGone(
    s: State, c: nat, now: int, listed: bool, tpSuffix: string, slSuffix: string, written: nat,
    position: string, leg: Leg, t0: int)
    requires Valid(s) && IsDigits(position) && c < |s.calls| && s.calls[c].Waiting? && now >= t0
    requires Legs(s.live, position, leg) == [] && NobodyWrites(s.calls, position, leg, t0)
    ensures var t := Wake(s, c, now, listed, tpSuffix, slSuffix, written);
            Legs(t.live, position, leg) == [] && NobodyWrites(t.calls, position, leg, t0)
  {
    var w, t := s.calls[c], Wake(s, c, now, listed, tpSuffix, slSuffix, written);
    WakeCalls(s, c, now, listed, tpSuffix, slSuffix, written);
    if t.live != s.live {
      var orders := Replacement(w.position, w.plan, tpSuffix, slSuffix);
      var n := if written < |orders| then written else |orders|;
      assert orders[..|orders|] == orders;
      assert t.live == s.live + orders[..n];
      assert !Plans(w, position, leg);
      UnplannedStaysGone(s.live, w, tpSuffix, slSuffix, n, position, leg);
    }
  }

  lemma {:induction false} NothingToRead(live: seq<Order>, position: string, leg: Leg)
    requires Legs(live, position, leg) == []
    ensures Current(live, position, leg) == None
  {
    if live != [] { NothingToRead(live[..|live| - 1], position, leg); }
  }

  lemma BeginKeepsGone(s: State, r: Request, now: int, accepted: nat, position: string, leg: Leg, t0: int)
    requires Legs(s.live, position, leg) == [] && NobodyWrites(s.calls, position, leg, t0)
    requires AsksNot(Begins(r, now, accepted), position, leg)
    ensures NobodyWrites(Begin(s, r, now, accepted).calls, position, leg, t0)
  {
    var t := Begin(s, r, now, accepted);
    NothingToRead(s.live, position, leg);
    assert forall c :: 0 <= c < |s.calls| ==> t.calls[c] == s.calls[c];
    assert !Plans(t.calls[|s.calls|], position, leg);
  }

  lemma ForeignKeepsGone(live: seq<Order>, o: Order, position: string, leg: Leg)
    requires IsDigits(position) && !IsProtectionRef(o.ref) && Legs(live, position, leg) == []
    ensures Legs(live + [o], position, leg) == []
  {
    ForeignIsUnowned(o.ref, position, leg);
    LegsConcat(live, [o], position, leg);
    LegsOfOne(o, position, leg);
  }

  lemma StepKeepsGone(s: State, op: Op, position: string, leg: Leg, t0: int)
    requires Valid(s) && Civil(op) && IsDigits(position) && (op.Wakes? ==> op.now >= t0)
    requires Legs(s.live, position, leg) == [] && NobodyWrites(s.calls, position, leg, t0)
    requires AsksNot(op, position, leg)
    ensures Legs(Step(s, op).live, position, leg) == [] && NobodyWrites(Step(s, op).calls, position, leg, t0)
  {
    match op
    case Begins(r, now, accepted) => BeginKeepsGone(s, r, now, accepted, position, leg, t0);
    case Wakes(c, now, listed, tpSuffix, slSuffix, written) =>
      if c < |s.calls| && s.calls[c].Waiting? {
        WakeKeepsGone(s, c, now, listed, tpSuffix, slSuffix, written, position, leg, t0);
      }
    case Removed(i) => if i < |s.live| { RemovalLegs(s.live, i, position, leg); }
    case Foreign(o) => ForeignKeepsGone(s.live, o, position, leg);
    case Moved(_, _) =>
  }

  /** The run polls no earlier than `t0` and does not ask for the side. */
  ghost predicate Polite(ops: seq<Op>, position: string, leg: Leg, t0: int) {
    forall i :: 0 <= i < |ops| ==>
      Civil(ops[i]) && AsksNot(ops[i], position, leg) && (ops[i].Wakes? ==> ops[i].now >= t0)
  }

  lemma {:induction false} UnplannedNeverReturns(s: State, ops: seq<Op>, position: string, leg: Leg, t0: int)
    requires Valid(s) && IsDigits(position) && Polite(ops, position, leg, t0)
    requires Legs(s.live, position, leg) == [] && NobodyWrites(s.calls, position, leg, t0)
    ensures Legs(Run(s, ops).live, position, leg) == []
    decreases |ops|
  {
    if ops != [] {
      StepKeepsGone(s, ops[0], position, leg, t0);
      StepValid(s, ops[0]);
      UnplannedNeverReturns(Step(s, ops[0]), ops[1..], position, leg, t0);
    }
  }

  lemma {:induction false} RunConcat(s: State, a: seq<Op>, b: seq<Op>)
    ensures Run(s, a + b) == Run(Run(s, a), b)
    decreases |a|
  {
    if a == [] {
      assert a + b == b;
    } else {
      assert (a + b)[1..] == a[1..] + b;
      RunConcat(Step(s, a[0]), a[1..], b);
    }
  }

  function Removals(n: nat): (ops: seq<Op>)
    ensures |ops| == n && forall i :: 0 <= i < n ==> ops[i] == Removed(0)
  {
    seq(n, i => Removed(0))
  }

  lemma {:induction false} RemovalsEmpty(s: State)
    ensures Run(s, Removals(|s.live|)) == s.(live := [])
    decreases |s.live|
  {
    var ops := Removals(|s.live|);
    if s.live != [] {
      assert ops[1..] == Removals(|s.live| - 1);
      RemovalsEmpty(Step(s, ops[0]));
    }
  }

  /** No run from the instant `t0` that does not ask for the side brings it back. */
  ghost predicate StaysGone(s: State, position: string, leg: Leg, t0: int) {
    forall ops: seq<Op> :: Polite(ops, position, leg, t0) ==> Legs(Run(s, ops).live, position, leg) == []
  }

  lemma ModifyPlaces(s: State, c: nat, now: int, tpSuffix: string, slSuffix: string)
    requires s.live == [] && c < |s.calls| && s.calls[c].Waiting? && s.calls[c].plan.Place? && now < s.calls[c].deadline
    ensures var w := s.calls[c];
            Step(s, Wakes(c, now, true, tpSuffix, slSuffix, 2)) ==
            s.(live := Replacement(w.position, w.plan, tpSuffix, slSuffix), calls := s.calls[c := Placed])
  {
    var orders := Replacement(s.calls[c].position, s.calls[c].plan, tpSuffix, slSuffix);
    assert Matching(s.live, s.calls[c].position, s.calls[c].tpSide, s.calls[c].slSide) == [];
    assert s.live + orders == orders && |orders| <= 2;
  }

  lemma ModifyWrites(s: State, c: nat, now: int, tpSuffix: string, slSuffix: string, leg: Leg)
    requires s.live == [] && c < |s.calls| && s.calls[c].Waiting? && s.calls[c].plan.Place? && now < s.calls[c].deadline
    requires IsDigits(s.calls[c].position) && Plans(s.calls[c], s.calls[c].position, leg)
    ensures var t, w := Step(s, Wakes(c, now, true, tpSuffix, slSuffix, 2)), s.calls[c];
            && t.calls == s.calls[c := Placed] && |Legs(t.live, w.position, leg)| == 1
            && Legs(t.live, w.position, leg)[0].attachment == if leg.Tp? then w.plan.tp else w.plan.sl
  {
    ModifyPlaces(s, c, now, tpSuffix, slSuffix);
    ReplacementLegs(s.calls[c].position, s.calls[c].plan, tpSuffix, slSuffix, s.calls[c].position, leg);
  }

  lemma RemovalsArePolite(n: nat, c: nat, position: string, leg: Leg, t0: int)
    ensures Polite(Removals(n) + [Wakes(c, t0, true, "", "", 2)], position, leg, t0)
  {
  }

  /** The broker removes everything, then the call that read the side back is polled
      while it still has time. */
  lemma PlannerBringsBack(s: State, c: nat, leg: Leg, t0: int) returns (ops: seq<Op>)
    requires Valid(s) && c < |s.calls| && s.calls[c].Waiting? && Plans(s.calls[c], s.calls[c].position, leg)
    requires t0 < s.calls[c].deadline
    ensures Polite(ops, s.calls[c].position, leg, t0) && Legs(Run(s, ops).live, s.calls[c].position, leg) != []
  {
    ops := Removals(|s.live|) + [Wakes(c, t0, true, "", "", 2)];
    RemovalsArePolite(|s.live|, c, s.calls[c].position, leg, t0);
    RunAfterRemovals(s, Wakes(c, t0, true, "", "", 2));
    ModifyWrites(s.(live := []), c, t0, "", "", leg);
  }

  lemma RunAfterRemovals(s: State, op: Op)
    ensures Run(s, Removals(|s.live|) + [op]) == Step(s.(live := []), op)
  {
    RemovalsEmpty(s);
    RunConcat(s, Removals(|s.live|), [op]);
    RunCons(s.(live := []), op, []);
    assert [op] + [] == [op];
  }

  /** A side that is gone at `t0` is sure to stay gone, until somebody asks for it,
      exactly when every waiting call that has read it back is out of time. */
  lemma ClearedStaysGoneIff(s: State, position: string, leg: Leg, t0: int)
    requires Valid(s) && IsDigits(position) && Legs(s.live, position, leg) == []
    ensures NobodyWrites(s.calls, position, leg, t0) <==> StaysGone(s, position, leg, t0)
  {
    if NobodyWrites(s.calls, position, leg, t0) {
      forall ops: seq<Op> | Polite(ops, position, leg, t0) ensures Legs(Run(s, ops).live, position, leg) == [] {
        UnplannedNeverReturns(s, ops, position, leg, t0);
      }
    } else {
      var c :| 0 <= c < |s.calls| && Plans(s.calls[c], position, leg) && t0 < s.calls[c].deadline;
      var ops := PlannerBringsBack(s, c, leg, t0);
    }
  }

  /** The operations of a lost clear: a modify that mentions the take-profit only,
      a clear of the stop-loss, the broker's cancel, and one poll of each. */
  function LostClearBegin(position: string, tp: Attachment, now: int): seq<Op> {
    [Begins(Modify(position, Some(tp), None), now, 1), Begins(Clear(position, false, true), now, 1), Removed(0)]
  }

  lemma RunCons(s: State, op: Op, rest: seq<Op>)
    ensures Run(s, [op] + rest) == Run(Step(s, op), rest)
  {
    assert ([op] + rest)[1..] == rest;
  }

  lemma OneStopLoss(position: string, sl: Order)
    requires IsDigits(position) && Owned(sl.ref, position, Sl) && sl.attachment.Some?
    ensures Matching([sl], position, true, true) == [sl] && Matching([sl], position, false, true) == [sl]
    ensures Current([sl], position, Sl) == sl.attachment
  {
    PrefixesAreDisjoint(sl.ref, position, position);
    assert [sl][..0] == [];
    assert Picked(sl, position, true, true) == [sl] && Picked(sl, position, false, true) == [sl];
  }

  lemma LostClearBegins(position: string, quantity: int, sl: Order, tp: Attachment, now: int)
    requires IsDigits(position) && quantity != 0 && Owned(sl.ref, position, Sl)
    requires sl.attachment.Some? && tp.limit.None?
    ensures var t := Run(State([sl], map[position := quantity], [], []), LostClearBegin(position, tp, now));
            && t.live == []
            && t.calls == [Waiting(position, true, true, now + CANCEL_TIMEOUT, Place(Some(tp), sl.attachment, -quantity)),
                           Waiting(position, false, true, now + CANCEL_TIMEOUT, Return)]
  {
    var s, ops := State([sl], map[position := quantity], [], []), LostClearBegin(position, tp, now);
    OneStopLoss(position, sl);
    var s1 := Step(s, ops[0]);
    var s2 := Step(s1, ops[1]);
    assert s1.live == [sl] && s2.live == [sl];
    RunCons(s, ops[0], [ops[1], ops[2]]);
    RunCons(s1, ops[1], [ops[2]]);
    RunCons(s2, ops[2], []);
    assert ops == [ops[0]] + [ops[1], ops[2]] && [ops[1], ops[2]] == [ops[1]] + [ops[2]] && [ops[2]] == [ops[2]] + [];
  }

  /** Such a run is reachable: the clear returns with the stop-loss gone, and then
      the modify, which read it before its sleep, writes it again. */
  lemma LostClear(
    position: string, quantity: int, sl: Order, tp: Attachment, now: int, tpSuffix: string, slSuffix: string)
    requires IsDigits(position) && quantity != 0 && Owned(sl.ref, position, Sl)
    requires sl.attachment.Some? && tp.limit.None?
    ensures var s := State([sl], map[position := quantity], [], []);
            var returned := Run(s, LostClearBegin(position, tp, now) + [Wakes(1, now, true, "", "", 0)]);
            var later := Step(returned, Wakes(0, now, true, tpSuffix, slSuffix, 2));
            && |returned.calls| == 2 && returned.calls[1] == Cleared && Legs(returned.live, position, Sl) == []
            && later.calls == [Placed, Cleared]
            && |Legs(later.live, position, Sl)| == 1 && Legs(later.live, position, Sl)[0].attachment == sl.attachment
  {
    var s, ops, poll := State([sl], map[position := quantity], [], []), LostClearBegin(position, tp, now), Wakes(1, now, true, "", "", 0);
    LostClearBegins(position, quantity, sl, tp, now);
    RunConcat(s, ops, [poll]);
    RunCons(Run(s, ops), poll, []);
    assert [poll] + [] == [poll];
    var waiting := Run(s, ops);
    ClearReturns(waiting, 1, now);
    ModifyWrites(waiting.(calls := [waiting.calls[0], Cleared]), 0, now, tpSuffix, slSuffix, Sl);
  }

  lemma ClearReturns(s: State, c: nat, now: int)
    requires s.live == [] && c < |s.calls| && s.calls[c].Waiting? && s.calls[c].plan == Return && now < s.calls[c].deadline
    ensures Step(s, Wakes(c, now, true, "", "", 0)) == s.(calls := s.calls[c := Cleared])
  {
    NothingMatches([], s.calls[c].position, s.calls[c].tpSide, s.calls[c].slSide);
  }
}
