/** IBKR order-status publication: the status stream, asynchronous rejections and
    inferred bracket cancels share one suppression rule for final states. */
module IbkrStatus {
  import opened Common
  import opened RecencyQueue
  import opened IbkrRefs

  const STATUS_FINAL_CAP: nat := 1000

  datatype Report = Report(cid: string, status: OrderStatus)

  /** What the session knows of an order; `record` is its translation, absent
      when the trade cannot be mapped. */
  datatype Trade = Trade(orderId: int, orderRef: string, record: Option<Report>, filled: int, total: int)

  // ---- The three sources of a report ----

  function FromStatusStream(t: Trade): Option<Report> {
    if IsProtectionRef(t.orderRef) then None else t.record
  }

  function ById(trades: seq<Trade>, orderId: int): (r: Option<Trade>)
    ensures r.Some? ==> r.value in trades && r.value.orderId == orderId
  {
    if trades == [] then None
    else if trades[0].orderId == orderId then Some(trades[0])
    else ById(trades[1..], orderId)
  }

  function ByRef(trades: seq<Trade>, orderRef: string): (r: Option<Trade>)
    ensures r.Some? ==> r.value in trades && r.value.orderRef == orderRef
  {
    if trades == [] then None
    else if trades[0].orderRef == orderRef then Some(trades[0])
    else ByRef(trades[1..], orderRef)
  }

  function Stamped(t: Option<Trade>, status: OrderStatus): Option<Report> {
    if t.None? || t.value.record.None? then None else Some(t.value.record.value.(status := status))
  }

  /** Codes 201 and 202 stamp the terminal status, since the trade still reads
      live; an expected cancel acknowledgement of a protective order is dropped. */
  function FromError(code: int, reqId: int, trades: seq<Trade>): Option<Report> {
    var protective := reqId != 0 && exists t :: t in trades && t.orderId == reqId && IsProtectionRef(t.orderRef);
    if (code == 161 || code == 202) && protective then None
    else if reqId == 0 || (code != 201 && code != 202) then None
    else Stamped(ById(trades, reqId), if code == 201 then Rejected else Cancelled)
  }

  /** A fully filled bracket leg is the evidence that its sibling died. */
  function FromFilledLeg(t: Trade, isExit: bool, trades: seq<Trade>): Option<Report> {
    if !isExit || t.total <= 0 || t.filled < t.total then None
    else
      var sibling := SiblingRef(t.orderRef);
      if sibling.None? then None else Stamped(ByRef(trades, sibling.value), Cancelled)
  }

  datatype Op =
    | StatusEvent(trade: Trade)
    | ErrorEvent(code: int, reqId: int, trades: seq<Trade>)
    | Execution(trade: Trade, isExit: bool, trades: seq<Trade>)

  function ReportOf(op: Op): Option<Report> {
    match op
    case StatusEvent(trade) => FromStatusStream(trade)
    case ErrorEvent(code, reqId, trades) => FromError(code, reqId, trades)
    case Execution(trade, isExit, trades) => FromFilledLeg(trade, isExit, trades)
  }

  // ---- The choke point ----

  datatype Stream = Stream(finals: seq<string>, events: seq<Report>)

  const EMPTY := Stream([], [])

  function Publish(s: Stream, r: Report): Stream {
    if IsProtectionRef(r.cid) || r.cid in s.finals then s
    else Stream(if r.status.IsFinal() then Touch(s.finals, r.cid, STATUS_FINAL_CAP) else s.finals, s.events + [r])
  }

  function Step(s: Stream, op: Op): Stream {
    var r := ReportOf(op);
    if r.Some? then Publish(s, r.value) else s
  }

  function Run(s: Stream, ops: seq<Op>): Stream
    decreases |ops|
  {
    if ops == [] then s else Run(Step(s, ops[0]), ops[1..])
  }

  /** The published orders, each with whether its event was final. */
  function Log(events: seq<Report>): (r: seq<(string, bool)>)
    ensures |r| == |events|
    ensures forall i :: 0 <= i < |r| ==> r[i] == (events[i].cid, events[i].status.IsFinal())
  {
    seq(|events|, i requires 0 <= i < |events| => (events[i].cid, events[i].status.IsFinal()))
  }

  ghost predicate Valid(s: Stream) {
    && s.finals == Window(FinalIds(Log(s.events)), STATUS_FINAL_CAP)
    && Unfinished(Log(s.events), STATUS_FINAL_CAP)
    && (forall j :: 0 <= j < |s.events| ==> !IsProtectionRef(s.events[j].cid))
  }

  lemma LogSnoc(events: seq<Report>, r: Report)
    ensures Log(events + [r]) == Log(events) + [(r.cid, r.status.IsFinal())]
  {
  }

  lemma FinalsFollow(log: seq<(string, bool)>, e: (string, bool))
    ensures Window(FinalIds(log + [e]), STATUS_FINAL_CAP) ==
            if e.1 then Touch(Window(FinalIds(log), STATUS_FINAL_CAP), e.0, STATUS_FINAL_CAP)
            else Window(FinalIds(log), STATUS_FINAL_CAP)
  {
    FinalIdsSnoc(log, e);
    WindowSnoc(FinalIds(log), e.0, STATUS_FINAL_CAP);
  }

  lemma PublishValid(s: Stream, r: Report)
    requires Valid(s)
    ensures Valid(Publish(s, r))
  {
    if Publish(s, r) != s {
      var e := (r.cid, r.status.IsFinal());
      LogSnoc(s.events, r);
      FinalsFollow(Log(s.events), e);
      UnfinishedSnoc(Log(s.events), e, STATUS_FINAL_CAP);
    }
  }

  lemma {:induction false} RunValid(s: Stream, ops: seq<Op>)
    requires Valid(s)
    ensures Valid(Run(s, ops))
    decreases |ops|
  {
    if ops != [] {
      if ReportOf(ops[0]).Some? { PublishValid(s, ReportOf(ops[0]).value); }
      RunValid(Step(s, ops[0]), ops[1..]);
    }
  }

  /** Over any run of the three sources, after an order's final event no event of
      any kind follows for it until at least 1000 other orders became final. */
  lemma FinalStatusIsFinal(ops: seq<Op>, i: nat, j: nat)
    requires i < j < |Run(EMPTY, ops).events|
    requires Run(EMPTY, ops).events[i].status.IsFinal()
    requires Run(EMPTY, ops).events[i].cid == Run(EMPTY, ops).events[j].cid
    ensures var events := Run(EMPTY, ops).events;
            |Elems(FinalIds(Log(events)[i + 1..j])) - {events[i].cid}| >= STATUS_FINAL_CAP
  {
    RunValid(EMPTY, ops);
    NothingFollowsFinal(Log(Run(EMPTY, ops).events), i, j, STATUS_FINAL_CAP);
  }

  /** No source can leak a protective order into the mirror, and the set of
      remembered final ids stays bounded. */
  lemma ProtectiveOrdersStayPrivate(ops: seq<Op>)
    ensures forall r :: r in Run(EMPTY, ops).events ==> !IsProtectionRef(r.cid)
    ensures Distinct(Run(EMPTY, ops).finals) && |Run(EMPTY, ops).finals| <= STATUS_FINAL_CAP
  {
    RunValid(EMPTY, ops);
    WindowShape(FinalIds(Log(Run(EMPTY, ops).events)), STATUS_FINAL_CAP);
  }

  /** A bracket fill cancels the other leg only, never the order that filled. */
  lemma SiblingCancelIsTheOtherLeg(t: Trade, isExit: bool, trades: seq<Trade>)
    requires FromFilledLeg(t, isExit, trades).Some?
    requires forall x :: x in trades && x.record.Some? && x.orderRef != "" ==> x.record.value.cid == x.orderRef
    ensures var r := FromFilledLeg(t, isExit, trades).value;
            r.status == Cancelled && r.cid != t.orderRef && SiblingRef(r.cid) == Some(t.orderRef)
  {
    SiblingIsMutual(t.orderRef);
  }

  // ---- What reaches the mirror ----

  /** A report is published exactly when its order is neither a protective one nor
      remembered as final, and it is remembered exactly when its status is final. */
  lemma PublishIsExact(s: Stream, r: Report)
    ensures var silent := IsProtectionRef(r.cid) || r.cid in s.finals;
            && (silent ==> Publish(s, r) == s)
            && (!silent ==> Publish(s, r).events == s.events + [r])
            && (!silent ==> (r.cid in Publish(s, r).finals <==> r.status in {Filled, Cancelled, Rejected, Expired}))
  {
    var all := Without(s.finals, r.cid) + [r.cid];
    assert all[|all| - 1] == r.cid;
  }

  /** A status event of an order that is not protective is published as translated. */
  lemma StatusEventIsExact(s: Stream, t: Trade)
    ensures Step(s, StatusEvent(t)) ==
            if !IsProtectionRef(t.orderRef) && t.record.Some? then Publish(s, t.record.value) else s
  {
  }

  ghost predicate FirstById(trades: seq<Trade>, i: nat, orderId: int) {
    i < |trades| && trades[i].orderId == orderId && forall j :: 0 <= j < i ==> trades[j].orderId != orderId
  }

  ghost predicate FirstByRef(trades: seq<Trade>, i: nat, orderRef: string) {
    i < |trades| && trades[i].orderRef == orderRef && forall j :: 0 <= j < i ==> trades[j].orderRef != orderRef
  }

  lemma {:induction false} ByIdFinds(trades: seq<Trade>, i: nat, orderId: int)
    requires FirstById(trades, i, orderId)
    ensures ById(trades, orderId) == Some(trades[i])
  {
    if i > 0 {
      assert forall j :: 0 <= j < i - 1 ==> trades[1..][j] == trades[j + 1];
      ByIdFinds(trades[1..], i - 1, orderId);
    }
  }

  lemma {:induction false} ByRefFinds(trades: seq<Trade>, i: nat, orderRef: string)
    requires FirstByRef(trades, i, orderRef)
    ensures ByRef(trades, orderRef) == Some(trades[i])
  {
    if i > 0 {
      assert forall j :: 0 <= j < i - 1 ==> trades[1..][j] == trades[j + 1];
      ByRefFinds(trades[1..], i - 1, orderRef);
    }
  }

  /** Error 201 publishes the order of that number as rejected, 202 as cancelled
      unless it is a protective one, and no other error publishes anything. */
  lemma ErrorEventIsExact(s: Stream, code: int, reqId: int, trades: seq<Trade>, i: nat)
    requires reqId != 0 && FirstById(trades, i, reqId)
    ensures var t, protective := trades[i], exists x :: x in trades && x.orderId == reqId && IsProtectionRef(x.orderRef);
            Step(s, ErrorEvent(code, reqId, trades)) ==
              if t.record.None? then s
              else if code == 201 then Publish(s, Report(t.record.value.cid, Rejected))
              else if code == 202 && !protective then Publish(s, Report(t.record.value.cid, Cancelled))
              else s
  {
    ByIdFinds(trades, i, reqId);
  }

  /** Nor does an error about no order, or about one the session does not know. */
  lemma UnknownErrorIsSilent(s: Stream, code: int, reqId: int, trades: seq<Trade>)
    requires reqId == 0 || forall t :: t in trades ==> t.orderId != reqId
    ensures Step(s, ErrorEvent(code, reqId, trades)) == s
  {
  }

  /** A bracket leg that filled completely cancels its sibling; a partial fill, a fill
      that is no exit and a leg without a live sibling publish nothing. */
  lemma FilledLegIsExact(s: Stream, t: Trade, isExit: bool, trades: seq<Trade>, i: nat)
    requires SiblingRef(t.orderRef).Some? && FirstByRef(trades, i, SiblingRef(t.orderRef).value)
    ensures Step(s, Execution(t, isExit, trades)) ==
              if isExit && 0 < t.total <= t.filled && trades[i].record.Some?
              then Publish(s, Report(trades[i].record.value.cid, Cancelled)) else s
  {
    ByRefFinds(trades, i, SiblingRef(t.orderRef).value);
  }

  lemma LegWithoutSiblingIsSilent(s: Stream, t: Trade, isExit: bool, trades: seq<Trade>)
    requires SiblingRef(t.orderRef).None? || forall x :: x in trades ==> x.orderRef != SiblingRef(t.orderRef).value
    ensures Step(s, Execution(t, isExit, trades)) == s
  {
  }

  lemma {:induction false} RunSnoc(s: Stream, ops: seq<Op>, op: Op)
    ensures Run(s, ops + [op]) == Step(Run(s, ops), op)
    decreases |ops|
  {
    if ops == [] {
      assert [op][1..] == [];
    } else {
      assert (ops + [op])[1..] == ops[1..] + [op];
      RunSnoc(Step(s, ops[0]), ops[1..], op);
    }
  }

  // ---- The adapter's set, updated in place ----

  class StatusPublisher {
    var finals: seq<string>
    var events: seq<Report>

    ghost function Model(): Stream
      reads this
    {
      Stream(finals, events)
    }

    constructor ()
      ensures Model() == EMPTY
    {
      finals, events := [], [];
    }

    method PublishStatusEvent(r: Report) returns (published: bool)
      requires |finals| <= STATUS_FINAL_CAP
      modifies this
      ensures |finals| <= STATUS_FINAL_CAP
      ensures Model() == Publish(old(Model()), r)
      ensures published <==> Model() != old(Model())
    {
      if IsProtectionRef(r.cid) { return false; }
      if r.cid in finals { return false; }
      if r.status.IsFinal() {
        AppendIsTouch(finals, r.cid, STATUS_FINAL_CAP);
        finals := finals + [r.cid];
        if |finals| > STATUS_FINAL_CAP { finals := finals[1..]; }
      }
      events := events + [r];
      return true;
    }

    method Handle(op: Op)
      requires |finals| <= STATUS_FINAL_CAP
      modifies this
      ensures |finals| <= STATUS_FINAL_CAP
      ensures Model() == Step(old(Model()), op)
    {
      var r := ReportOf(op);
      if r.Some? { var published := PublishStatusEvent(r.value); }
    }
  }
}
