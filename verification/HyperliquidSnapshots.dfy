/** Adapter-owned order snapshots: the base that thin order pushes merge onto
    while they race the REST acknowledgement of the same order. */
module HyperliquidSnapshots {
  import opened Common
  import opened RecencyQueue

  const ORDER_SNAPSHOT_CAP: nat := 10000

  datatype Side = Buy | Sell
  datatype OrderType = Market | Limit | Stop | StopLimit
  datatype TimeInForce = Gtc | Ioc

  /** What the caller asked for and no venue message may change. */
  datatype Terms = Terms(
    instrument: string, side: Side, orderType: OrderType, timeInForce: TimeInForce,
    takeProfit: Option<int>, stopLoss: Option<int>)

  datatype Intent = Intent(terms: Terms, price: Option<int>, quantity: int)

  datatype Record = Record(
    terms: Terms, price: Option<int>, quantity: int, platformId: Option<string>,
    status: OrderStatus, filled: int, average: Option<int>)

  /** The progress fields of a thin push or of a REST result. */
  datatype Report = Report(platformId: Option<string>, status: OrderStatus, filled: int, average: Option<int>)

  function Max(a: int, b: int): int { if a >= b then a else b }

  /** Python's `a or b`: zero and the empty string count as missing. */
  function PriceOr(a: Option<int>, b: Option<int>): Option<int> {
    if a.Some? && a.value != 0 then a else b
  }

  function IdOr(a: Option<string>, b: Option<string>): Option<string> {
    if a.Some? && a.value != "" then a else b
  }

  /** `_snapshot_from_order`: the full intent, nothing filled yet. */
  function FromIntent(o: Intent): Record {
    Record(o.terms, o.price, o.quantity, None, Pending, 0, None)
  }

  /** Folds reported progress onto the local record; the filled quantity is
      monotone, so a stale echo cannot lower it. */
  function Fold(local: Record, r: Report): Record {
    local.(status := r.status, filled := Max(local.filled, r.filled),
      average := PriceOr(r.average, local.average), platformId := IdOr(r.platformId, local.platformId))
  }

  // ---- State and steps ----

  /** An insertion-ordered dictionary, its keys oldest first and its rows, and the
      orphan queries in flight, one occurrence each. */
  datatype Store = Store(order: seq<string>, rows: map<string, Record>, queries: multiset<string>)

  const EMPTY := Store([], map[], multiset{})

  function Kept(rows: map<string, Record>, order: seq<string>): map<string, Record> {
    map k | k in rows && k in order :: rows[k]
  }

  function Remember(s: Store, cid: string, r: Record): Store {
    var order := Touch(s.order, cid, ORDER_SNAPSHOT_CAP);
    s.(order := order, rows := Kept(s.rows[cid := r], order))
  }

  function Forget(s: Store, cid: string): Store {
    s.(order := Without(s.order, cid), rows := s.rows - {cid})
  }

  /** The handlers, each one atomic: submit, rejected submit, acknowledgement,
      amendment result, cancel result, thin push and rich push. `current` is the
      live record an amendment reads when no snapshot is held. A thin push of an
      order without a snapshot suspends in a query; its answer, absent on failure,
      is stored whatever happened meanwhile. */
  datatype Op =
    | Submit(cid: string, intent: Intent)
    | SubmitFailed(cid: string)
    | Ack(cid: string, intent: Intent, report: Report)
    | Amended(cid: string, price: Option<int>, quantity: Option<int>, report: Report, current: Record)
    | CancelDone(cid: string, report: Report)
    | ThinPush(cid: string, report: Report)
    | OrphanAnswer(cid: string, answer: Option<Record>)
    | RichPush(cid: string, record: Record)

  function AckRecord(previous: Option<Record>, o: Intent, r: Report): Record {
    FromIntent(o).(platformId := r.platformId, status := r.status,
      filled := Max(r.filled, if previous.Some? then previous.value.filled else 0),
      average := PriceOr(r.average, if previous.Some? then previous.value.average else None))
  }

  function AmendedRecord(previous: Record, price: Option<int>, quantity: Option<int>, r: Report): Record {
    Fold(previous, r).(price := if price.Some? then price else previous.price,
      quantity := if quantity.Some? then quantity.value else previous.quantity)
  }

  function Find(s: Store, cid: string): Option<Record> {
    if cid in s.rows then Some(s.rows[cid]) else None
  }

  /** The record an operation stores for its order, if any. */
  function Written(s: Store, op: Op): Option<Record> {
    var local := Find(s, op.cid);
    match op
    case Submit(_, intent) => Some(FromIntent(intent))
    case SubmitFailed(_) => None
    case Ack(_, intent, report) => Some(AckRecord(local, intent, report))
    case Amended(_, price, quantity, report, current) =>
      Some(AmendedRecord(if local.Some? then local.value else current, price, quantity, report))
    case CancelDone(_, report) => if local.Some? then Some(Fold(local.value, report)) else None
    case ThinPush(_, report) => if local.Some? then Some(Fold(local.value, report)) else None
    case OrphanAnswer(cid, answer) => if cid in s.queries then answer else None
    case RichPush(cid, record) => if cid != "" then Some(record) else None
  }

  /** The orphan queries in flight after an operation. */
  function Asked(s: Store, op: Op): multiset<string> {
    if op.ThinPush? && op.cid !in s.rows && op.cid != "" then s.queries + multiset{op.cid}
    else if op.OrphanAnswer? then s.queries - multiset{op.cid}
    else s.queries
  }

  function Step(s: Store, op: Op): Store {
    if op.SubmitFailed? then Forget(s, op.cid)
    else
      var t := s.(queries := Asked(s, op));
      if Written(s, op).Some? then Remember(t, op.cid, Written(s, op).value) else t
  }

  function Run(s: Store, ops: seq<Op>): Store
    decreases |ops|
  {
    if ops == [] then s else Run(Step(s, ops[0]), ops[1..])
  }

  // ---- Shape ----

  ghost predicate Valid(s: Store) {
    && Distinct(s.order) && |s.order| <= ORDER_SNAPSHOT_CAP
    && forall k :: k in s.rows <==> k in s.order
  }

  lemma RememberValid(s: Store, cid: string, r: Record)
    requires Valid(s)
    ensures Valid(Remember(s, cid, r))
    ensures Find(Remember(s, cid, r), cid) == Some(r)
    ensures forall k :: k != cid && k in Remember(s, cid, r).rows ==> Find(Remember(s, cid, r), k) == Find(s, k)
  {
    TouchKeepsShape(s.order, cid, ORDER_SNAPSHOT_CAP);
  }

  lemma StepValid(s: Store, op: Op)
    requires Valid(s)
    ensures Valid(Step(s, op))
    ensures forall k :: k != op.cid && k in Step(s, op).rows ==> Find(Step(s, op), k) == Find(s, k)
    ensures !op.SubmitFailed? ==>
              Find(Step(s, op), op.cid) == if Written(s, op).Some? then Written(s, op) else Find(s, op.cid)
  {
    if op.SubmitFailed? {
      WithoutKeepsDistinct(s.order, op.cid);
    } else if Written(s, op).Some? {
      RememberValid(s.(queries := Asked(s, op)), op.cid, Written(s, op).value);
    }
  }

  /** Over any run the store holds at most 10000 snapshots. */
  lemma {:induction false} StoreStaysBounded(s: Store, ops: seq<Op>)
    requires Valid(s)
    ensures Valid(Run(s, ops)) && |Run(s, ops).rows| <= ORDER_SNAPSHOT_CAP
    decreases |ops|
  {
    if ops == [] {
      DistinctCount(s.order);
      assert s.rows.Keys == Elems(s.order);
    } else {
      StepValid(s, ops[0]);
      StoreStaysBounded(Step(s, ops[0]), ops[1..]);
    }
  }

  // ---- Racing pushes and acknowledgements ----

  /** The operation reports progress on this order without replacing it: any
      thin push, acknowledgement of the same intent, amendment or cancel. */
  predicate Reporting(op: Op, cid: string, intent: Intent) {
    && op.cid == cid
    && !op.Submit? && !op.SubmitFailed? && !op.RichPush?
    && (op.Ack? ==> op.intent == intent)
  }

  ghost predicate Undisturbed(ops: seq<Op>, cid: string, intent: Intent) {
    forall i :: 0 <= i < |ops| ==> ops[i].cid != cid || Reporting(ops[i], cid, intent)
  }

  /** The operation carries a report. */
  predicate Carries(op: Op) {
    op.Ack? || op.Amended? || op.CancelDone? || op.ThinPush?
  }

  /** The largest filled quantity reported for the order, from `sofar` on. */
  function MaxReported(sofar: int, ops: seq<Op>, cid: string): int
    decreases |ops|
  {
    if ops == [] then sofar
    else if ops[0].cid == cid && Carries(ops[0]) then
      MaxReported(Max(sofar, ops[0].report.filled), ops[1..], cid)
    else MaxReported(sofar, ops[1..], cid)
  }

  /** The status carried by the last operation on the order. */
  function LastStatus(sofar: OrderStatus, ops: seq<Op>, cid: string): OrderStatus
    decreases |ops|
  {
    if ops == [] then sofar
    else if ops[0].cid == cid && Carries(ops[0]) then
      LastStatus(ops[0].report.status, ops[1..], cid)
    else LastStatus(sofar, ops[1..], cid)
  }

  ghost function OtherOrders(ops: seq<Op>, cid: string): set<string> {
    set i | 0 <= i < |ops| && ops[i].cid != cid :: ops[i].cid
  }

  /** No answer of an orphan query for the order is still to come in the run. */
  ghost predicate Quiet(s: Store, ops: seq<Op>, cid: string) {
    cid !in s.queries || forall i :: 0 <= i < |ops| && ops[i].cid == cid ==> !ops[i].OrphanAnswer?
  }

  ghost predicate Holds(s: Store, cid: string, others: set<string>) {
    Valid(s) && HeldAmong(s.order, cid, others, ORDER_SNAPSHOT_CAP)
  }

  /** While fewer than 10000 other orders are touched a snapshot stays held. */
  lemma StepHolds(s: Store, op: Op, cid: string, others: set<string>)
    requires Holds(s, cid, others) && (op.cid == cid || op.cid in others)
    requires !(op.SubmitFailed? && op.cid == cid)
    ensures Holds(Step(s, op), cid, others)
    ensures cid in Step(s, op).rows
    ensures op.cid != cid ==> Find(Step(s, op), cid) == Find(s, cid)
  {
    StepValid(s, op);
    if op.SubmitFailed? {
      AfterWithout(s.order, cid, op.cid);
    } else if Written(s, op).Some? {
      StaysHeld(s.order, cid, op.cid, others, ORDER_SNAPSHOT_CAP);
    }
  }

  lemma WrittenReport(s: Store, op: Op, intent: Intent)
    requires op.cid in s.rows && Carries(op) && (op.Ack? ==> op.intent == intent)
    ensures Written(s, op).Some? && Written(s, op).value.status == op.report.status
    ensures Written(s, op).value.filled == Max(s.rows[op.cid].filled, op.report.filled)
    ensures s.rows[op.cid].terms == intent.terms ==> Written(s, op).value.terms == intent.terms
  {
  }

  /** One step of the race on the order itself: the fill is the maximum of old and
      reported, and the terms stay. */
  lemma StepKeepsHeld(s: Store, op: Op, cid: string, intent: Intent)
    requires Valid(s) && cid in s.rows && Reporting(op, cid, intent)
    requires op.OrphanAnswer? ==> cid !in s.queries
    ensures !Carries(op) ==> Find(Step(s, op), cid) == Find(s, cid)
    ensures Carries(op) ==>
              && Find(Step(s, op), cid).Some?
              && Step(s, op).rows[cid].status == op.report.status
              && Step(s, op).rows[cid].filled == Max(s.rows[cid].filled, op.report.filled)
              && (s.rows[cid].terms == intent.terms ==> Step(s, op).rows[cid].terms == intent.terms)
  {
    StepValid(s, op);
    if Carries(op) { WrittenReport(s, op, intent); }
  }

  lemma OthersOfRest(ops: seq<Op>, cid: string)
    requires ops != []
    ensures OtherOrders(ops[1..], cid) <= OtherOrders(ops, cid)
    ensures ops[0].cid == cid || ops[0].cid in OtherOrders(ops, cid)
  {
    forall k | k in OtherOrders(ops[1..], cid) ensures k in OtherOrders(ops, cid) {
      var i :| 0 <= i < |ops[1..]| && ops[1..][i].cid != cid && ops[1..][i].cid == k;
      assert ops[i + 1].cid != cid;
    }
  }

  lemma UndisturbedRest(ops: seq<Op>, cid: string, intent: Intent)
    requires ops != [] && Undisturbed(ops, cid, intent)
    ensures Undisturbed(ops[1..], cid, intent)
    ensures ops[0].cid == cid ==> Reporting(ops[0], cid, intent)
  {
  }

  /** A held order starts no orphan query of its own. */
  lemma QuietRest(s: Store, ops: seq<Op>, cid: string)
    requires ops != [] && cid in s.rows && Quiet(s, ops, cid)
    ensures Quiet(Step(s, ops[0]), ops[1..], cid)
    ensures ops[0].cid == cid && ops[0].OrphanAnswer? ==> cid !in s.queries
  {
    assert cid !in s.queries ==> cid !in Step(s, ops[0]).queries;
  }

  lemma {:induction false} RaceFrom(s: Store, ops: seq<Op>, cid: string, intent: Intent, others: set<string>)
    requires Holds(s, cid, others) && Undisturbed(ops, cid, intent) && Quiet(s, ops, cid)
    requires OtherOrders(ops, cid) <= others
    ensures Find(Run(s, ops), cid).Some?
    ensures s.rows[cid].terms == intent.terms ==> Run(s, ops).rows[cid].terms == intent.terms
    ensures Run(s, ops).rows[cid].filled == MaxReported(s.rows[cid].filled, ops, cid)
    ensures Run(s, ops).rows[cid].status == LastStatus(s.rows[cid].status, ops, cid)
    decreases |ops|
  {
    if ops != [] {
      OthersOfRest(ops, cid);
      UndisturbedRest(ops, cid, intent);
      QuietRest(s, ops, cid);
      StepHolds(s, ops[0], cid, others);
      if ops[0].cid == cid { StepKeepsHeld(s, ops[0], cid, intent); }
      RaceFrom(Step(s, ops[0]), ops[1..], cid, intent, others);
    }
  }

  lemma PlacementHolds(s: Store, cid: string, intent: Intent, others: set<string>)
    requires Valid(s) && |others| < ORDER_SNAPSHOT_CAP
    ensures Holds(Step(s, Submit(cid, intent)), cid, others)
    ensures Find(Step(s, Submit(cid, intent)), cid) == Some(FromIntent(intent))
    ensures Step(s, Submit(cid, intent)).queries == s.queries
  {
    StepValid(s, Submit(cid, intent));
    TouchKeepsShape(s.order, cid, ORDER_SNAPSHOT_CAP);
    LastHasNothingAfter(Step(s, Submit(cid, intent)).order);
  }

  /** From placement on, while no rich push replaces the snapshot, no orphan query
      from before is still to be answered and fewer than 10000 other orders are
      touched: whatever the interleaving of thin pushes, acknowledgement, amendments
      and cancels, the filled quantity is the largest one reported so far and the
      terms of the order never change. */
  lemma SnapshotRace(s: Store, ops: seq<Op>, cid: string, intent: Intent)
    requires Valid(s) && Undisturbed(ops, cid, intent) && Quiet(s, ops, cid)
    requires |OtherOrders(ops, cid)| < ORDER_SNAPSHOT_CAP
    ensures var t := Run(Step(s, Submit(cid, intent)), ops);
            && cid in t.rows
            && t.rows[cid].terms == intent.terms
            && t.rows[cid].filled == MaxReported(0, ops, cid)
            && t.rows[cid].status == LastStatus(Pending, ops, cid)
  {
    PlacementHolds(s, cid, intent, OtherOrders(ops, cid));
    RaceFrom(Step(s, Submit(cid, intent)), ops, cid, intent, OtherOrders(ops, cid));
  }

  // ---- The other fields of a raced snapshot ----

  /** The last average price reported that is not missing or zero. */
  function LastAverage(sofar: Option<int>, ops: seq<Op>, cid: string): Option<int>
    decreases |ops|
  {
    if ops == [] then sofar
    else if ops[0].cid == cid && Carries(ops[0]) && ops[0].report.average !in {None, Some(0)} then
      LastAverage(ops[0].report.average, ops[1..], cid)
    else LastAverage(sofar, ops[1..], cid)
  }

  /** The venue's id once an acknowledgement has set it: from then on the last one
      reported that is not missing or empty. */
  function LastId(sofar: Option<string>, ops: seq<Op>, cid: string): Option<string>
    decreases |ops|
  {
    if ops == [] then sofar
    else
      var op := ops[0];
      var told := op.cid == cid && Carries(op) && (op.Ack? || op.report.platformId !in {None, Some("")});
      LastId(if told then op.report.platformId else sofar, ops[1..], cid)
  }

  /** The price and quantity last asked for: an acknowledgement tells those of the
      intent, an amendment those it changes. */
  function LastAsked(sofar: (Option<int>, int), ops: seq<Op>, cid: string): (Option<int>, int)
    decreases |ops|
  {
    if ops == [] then sofar
    else
      var op := ops[0];
      LastAsked(
        if op.cid != cid then sofar
        else if op.Ack? then (op.intent.price, op.intent.quantity)
        else if op.Amended? && op.price.Some? && op.quantity.Some? then (op.price, op.quantity.value)
        else if op.Amended? && op.price.Some? then (op.price, sofar.1)
        else if op.Amended? && op.quantity.Some? then (sofar.0, op.quantity.value)
        else sofar, ops[1..], cid)
  }

  lemma FoldFields(local: Record, r: Report)
    ensures Fold(local, r).average == if r.average !in {None, Some(0)} then r.average else local.average
    ensures Fold(local, r).platformId == if r.platformId !in {None, Some("")} then r.platformId else local.platformId
    ensures Fold(local, r).price == local.price && Fold(local, r).quantity == local.quantity
  {
  }

  lemma AckFields(local: Record, intent: Intent, r: Report)
    ensures var now := AckRecord(Some(local), intent, r);
            && now.average == (if r.average !in {None, Some(0)} then r.average else local.average)
            && now.platformId == r.platformId && now.price == intent.price && now.quantity == intent.quantity
  {
  }

  lemma AmendedFields(local: Record, price: Option<int>, quantity: Option<int>, r: Report)
    ensures var now := AmendedRecord(local, price, quantity, r);
            && now.average == Fold(local, r).average && now.platformId == Fold(local, r).platformId
            && now.price == (if price.Some? then price else local.price)
            && now.quantity == (if quantity.Some? then quantity.value else local.quantity)
  {
  }

  lemma StepFields(s: Store, op: Op, intent: Intent)
    requires Valid(s) && op.cid in s.rows && Reporting(op, op.cid, intent)
    requires op.OrphanAnswer? ==> op.cid !in s.queries
    ensures Find(Step(s, op), op.cid).Some?
    ensures var was, now := s.rows[op.cid], Step(s, op).rows[op.cid];
            && now.average == (if Carries(op) && op.report.average !in {None, Some(0)} then op.report.average else was.average)
            && now.platformId == (if Carries(op) && (op.Ack? || op.report.platformId !in {None, Some("")})
                                  then op.report.platformId else was.platformId)
            && now.price == (if op.Ack? then op.intent.price else if op.Amended? && op.price.Some? then op.price else was.price)
            && now.quantity == (if op.Ack? then op.intent.quantity
                                else if op.Amended? && op.quantity.Some? then op.quantity.value else was.quantity)
  {
    StepValid(s, op);
    var was := s.rows[op.cid];
    if Carries(op) { FoldFields(was, op.report); }
    if op.Ack? { AckFields(was, op.intent, op.report); }
    if op.Amended? { AmendedFields(was, op.price, op.quantity, op.report); }
  }

  /** The run-level statement behind `SnapshotFields`. */
  lemma {:induction false} FieldsFrom(s: Store, ops: seq<Op>, cid: string, intent: Intent, others: set<string>)
    requires Holds(s, cid, others) && Undisturbed(ops, cid, intent) && Quiet(s, ops, cid) && cid in s.rows
    requires OtherOrders(ops, cid) <= others
    ensures Find(Run(s, ops), cid).Some?
    ensures var was, now := s.rows[cid], Run(s, ops).rows[cid];
            && now.average == LastAverage(was.average, ops, cid)
            && now.platformId == LastId(was.platformId, ops, cid)
            && (now.price, now.quantity) == LastAsked((was.price, was.quantity), ops, cid)
    decreases |ops|
  {
    if ops != [] {
      OthersOfRest(ops, cid);
      UndisturbedRest(ops, cid, intent);
      QuietRest(s, ops, cid);
      StepHolds(s, ops[0], cid, others);
      if ops[0].cid == cid { StepFields(s, ops[0], intent); }
      FieldsFrom(Step(s, ops[0]), ops[1..], cid, intent, others);
    }
  }

  /** In the race that follows a placement the average price and the venue's id are
      the last ones told, and price and quantity the last ones asked for. */
  lemma SnapshotFields(s: Store, ops: seq<Op>, cid: string, intent: Intent)
    requires Valid(s) && Undisturbed(ops, cid, intent) && Quiet(s, ops, cid)
    requires |OtherOrders(ops, cid)| < ORDER_SNAPSHOT_CAP
    ensures var t := Run(Step(s, Submit(cid, intent)), ops);
            && cid in t.rows
            && t.rows[cid].average == LastAverage(None, ops, cid)
            && t.rows[cid].platformId == LastId(None, ops, cid)
            && (t.rows[cid].price, t.rows[cid].quantity) == LastAsked((intent.price, intent.quantity), ops, cid)
  {
    PlacementHolds(s, cid, intent, OtherOrders(ops, cid));
    FieldsFrom(Step(s, Submit(cid, intent)), ops, cid, intent, OtherOrders(ops, cid));
  }

  /** Outside a race: a rejected submit drops the snapshot, a rich push replaces it,
      unless it names no order. */
  lemma DroppedOrReplaced(s: Store, cid: string, record: Record)
    requires Valid(s)
    ensures Find(Step(s, SubmitFailed(cid)), cid) == None
    ensures if cid != "" then Find(Step(s, RichPush(cid, record)), cid) == Some(record) else Step(s, RichPush(cid, record)) == s
  {
    StepValid(s, SubmitFailed(cid));
    StepValid(s, RichPush(cid, record));
  }

  /** A report on an order that is not held adds nothing; a thin push starts a query
      for it, whose answer is stored and ends the query. */
  lemma UnheldReport(s: Store, cid: string, report: Report, answer: Option<Record>)
    requires Valid(s) && cid !in s.rows && cid != ""
    ensures Find(Step(s, CancelDone(cid, report)), cid) == None
    ensures var asked := Step(s, ThinPush(cid, report));
            && Find(asked, cid) == None && asked.queries == s.queries + multiset{cid}
            && Find(Step(asked, OrphanAnswer(cid, answer)), cid) == answer
            && Step(asked, OrphanAnswer(cid, answer)).queries == s.queries
  {
    StepValid(s, CancelDone(cid, report));
    var asked := Step(s, ThinPush(cid, report));
    StepValid(s, ThinPush(cid, report));
    StepValid(asked, OrphanAnswer(cid, answer));
  }

  /** An acknowledgement of an order that is not held tells the intent, an amendment
      changes the live record it read. */
  lemma UnheldResult(s: Store, cid: string, op: Op)
    requires Valid(s) && cid !in s.rows && op.cid == cid && (op.Ack? || op.Amended?)
    ensures Find(Step(s, op), cid).Some?
    ensures var now := Step(s, op).rows[cid];
            && now.status == op.report.status
            && (op.Ack? ==> now.terms == op.intent.terms && now.price == op.intent.price && now.quantity == op.intent.quantity
                            && now.filled == Max(0, op.report.filled))
            && (op.Amended? ==>
                  && now.terms == op.current.terms && now.filled == Max(op.current.filled, op.report.filled)
                  && now.price == (if op.price.Some? then op.price else op.current.price)
                  && now.quantity == (if op.quantity.Some? then op.quantity.value else op.current.quantity))
  {
    StepValid(s, op);
  }

  // ---- Answers that come late ----

  /** Whatever reports and answers follow the placement, the order is held with the
      largest filled quantity reported. */
  ghost predicate KeepsMaximum(s: Store, cid: string, intent: Intent) {
    forall ops: seq<Op> :: Undisturbed(ops, cid, intent) && |OtherOrders(ops, cid)| < ORDER_SNAPSHOT_CAP ==>
      && cid in Run(Step(s, Submit(cid, intent)), ops).rows
      && Run(Step(s, Submit(cid, intent)), ops).rows[cid].filled == MaxReported(0, ops, cid)
  }

  lemma RunTwo(s: Store, a: Op, b: Op)
    ensures Run(s, [a, b]) == Step(Step(s, a), b)
  {
    assert [a, b][1..] == [b] && [b][1..] == [];
    assert Run(s, [a, b]) == Run(Step(s, a), [b]) == Run(Step(Step(s, a), b), []);
  }

  /** A push of a fill, then the answer of a query from before the placement. */
  function LateAnswer(cid: string, intent: Intent): seq<Op> {
    [ThinPush(cid, Report(None, Open, 1, None)), OrphanAnswer(cid, Some(FromIntent(intent)))]
  }

  lemma AnswerStores(s: Store, cid: string, answer: Record)
    requires Valid(s) && cid in s.queries
    ensures Find(Step(s, OrphanAnswer(cid, Some(answer))), cid) == Some(answer)
  {
    StepValid(s, OrphanAnswer(cid, Some(answer)));
  }

  lemma PushWhenHeld(s: Store, cid: string, report: Report)
    requires Valid(s) && cid in s.rows
    ensures Valid(Step(s, ThinPush(cid, report))) && Step(s, ThinPush(cid, report)).queries == s.queries
    ensures Find(Step(s, ThinPush(cid, report)), cid) == Some(Fold(s.rows[cid], report))
  {
    StepValid(s, ThinPush(cid, report));
  }

  lemma LateAnswerForgets(s: Store, cid: string, intent: Intent)
    requires Valid(s) && cid in s.queries
    ensures Find(Run(Step(s, Submit(cid, intent)), LateAnswer(cid, intent)), cid) == Some(FromIntent(intent))
  {
    var placed, report := Step(s, Submit(cid, intent)), Report(None, Open, 1, None);
    PlacementHolds(s, cid, intent, {});
    PushWhenHeld(placed, cid, report);
    AnswerStores(Step(placed, ThinPush(cid, report)), cid, FromIntent(intent));
    RunTwo(placed, ThinPush(cid, report), OrphanAnswer(cid, Some(FromIntent(intent))));
  }

  lemma LateAnswerMaximum(cid: string, intent: Intent)
    ensures MaxReported(0, LateAnswer(cid, intent), cid) == 1
  {
    var ops := LateAnswer(cid, intent);
    assert ops[1..] == [ops[1]] && ops[1..][1..] == [];
    assert MaxReported(0, ops, cid) == MaxReported(1, ops[1..], cid) == MaxReported(1, [], cid);
  }

  /** The maximum is sure to survive a placement exactly when no orphan query for
      the order is in flight at that moment. */
  lemma MaximumSurvivesIff(s: Store, cid: string, intent: Intent)
    requires Valid(s)
    ensures cid !in s.queries <==> KeepsMaximum(s, cid, intent)
  {
    if cid !in s.queries {
      forall ops: seq<Op> | Undisturbed(ops, cid, intent) && |OtherOrders(ops, cid)| < ORDER_SNAPSHOT_CAP
        ensures cid in Run(Step(s, Submit(cid, intent)), ops).rows
        ensures Run(Step(s, Submit(cid, intent)), ops).rows[cid].filled == MaxReported(0, ops, cid)
      {
        SnapshotRace(s, ops, cid, intent);
      }
    } else {
      LateAnswerForgets(s, cid, intent);
      LateAnswerMaximum(cid, intent);
      assert OtherOrders(LateAnswer(cid, intent), cid) == {};
      assert Undisturbed(LateAnswer(cid, intent), cid, intent);
    }
  }

  lemma {:induction false} RunHolds(s: Store, ops: seq<Op>, cid: string, intent: Intent, others: set<string>)
    requires Holds(s, cid, others) && Undisturbed(ops, cid, intent) && OtherOrders(ops, cid) <= others
    ensures Holds(Run(s, ops), cid, others)
    decreases |ops|
  {
    if ops != [] {
      OthersOfRest(ops, cid);
      UndisturbedRest(ops, cid, intent);
      StepHolds(s, ops[0], cid, others);
      RunHolds(Step(s, ops[0]), ops[1..], cid, intent, others);
    }
  }

  /** In a run with answers the filled quantity is the largest of the last stored
      answer and the reports that followed it. */
  lemma FillAfterLastAnswer(
    s: Store, before: seq<Op>, answer: Record, after: seq<Op>, cid: string, intent: Intent)
    requires Valid(s) && Undisturbed(before, cid, intent) && Undisturbed(after, cid, intent)
    requires |OtherOrders(before, cid) + OtherOrders(after, cid)| < ORDER_SNAPSHOT_CAP
    requires var asked := Run(Step(s, Submit(cid, intent)), before);
             && cid in asked.queries
             && Quiet(Step(asked, OrphanAnswer(cid, Some(answer))), after, cid)
    ensures var t := Run(Step(Run(Step(s, Submit(cid, intent)), before), OrphanAnswer(cid, Some(answer))), after);
            && cid in t.rows
            && t.rows[cid].filled == MaxReported(answer.filled, after, cid)
            && t.rows[cid].status == LastStatus(answer.status, after, cid)
  {
    var others := OtherOrders(before, cid) + OtherOrders(after, cid);
    PlacementHolds(s, cid, intent, others);
    RunHolds(Step(s, Submit(cid, intent)), before, cid, intent, others);
    var asked := Run(Step(s, Submit(cid, intent)), before);
    StepHolds(asked, OrphanAnswer(cid, Some(answer)), cid, others);
    StepValid(asked, OrphanAnswer(cid, Some(answer)));
    RaceFrom(Step(asked, OrphanAnswer(cid, Some(answer))), after, cid, intent, others);
  }

  /** Such runs are reachable: a push before placement starts a query, and its
      answer, older than a fill pushed meanwhile, lowers the fill again. */
  lemma LateAnswerLowersFill(cid: string, intent: Intent, early: Report, fill: Report, answer: Record)
    requires cid != "" && answer.filled < fill.filled && fill.filled > 0
    ensures var placed := Run(EMPTY, [ThinPush(cid, early), Submit(cid, intent)]);
            var pushed := Step(placed, ThinPush(cid, fill));
            && Find(pushed, cid).Some? && pushed.rows[cid].filled == fill.filled
            && Find(Step(pushed, OrphanAnswer(cid, Some(answer))), cid) == Some(answer)
  {
    RunTwo(EMPTY, ThinPush(cid, early), Submit(cid, intent));
    var asked := Step(EMPTY, ThinPush(cid, early));
    assert asked == EMPTY.(queries := multiset{cid});
    PlacementHolds(asked, cid, intent, {});
    var placed := Step(asked, Submit(cid, intent));
    PushWhenHeld(placed, cid, fill);
    AnswerStores(Step(placed, ThinPush(cid, fill)), cid, answer);
  }

  /** The status has no such protection: an acknowledgement that lost the race
      against a push of the complete fill reopens the snapshot. */
  lemma LateAckReopens(s: Store, cid: string, intent: Intent, fill: Report, ack: Report)
    requires Valid(s)
    requires fill.status == Filled && ack.status == Open && 0 <= ack.filled <= fill.filled
    ensures var t := Run(Step(s, Submit(cid, intent)), [ThinPush(cid, fill), Ack(cid, intent, ack)]);
            cid in t.rows && t.rows[cid].filled == fill.filled && t.rows[cid].status == Open
  {
    PlacementHolds(s, cid, intent, {});
    var placed := Step(s, Submit(cid, intent));
    PushWhenHeld(placed, cid, fill);
    StepKeepsHeld(Step(placed, ThinPush(cid, fill)), Ack(cid, intent, ack), cid, intent);
    RunTwo(placed, ThinPush(cid, fill), Ack(cid, intent, ack));
  }

  lemma FullKept(s: Store, cid: string, r: Record)
    requires Valid(s)
    ensures Distinct(Without(s.order, cid) + [cid])
    ensures Kept(s.rows[cid := r], Without(s.order, cid) + [cid]) == s.rows[cid := r]
  {
    WithoutKeepsDistinct(s.order, cid);
  }

  lemma KeptDrop(rows: map<string, Record>, order: seq<string>)
    requires order != [] && Distinct(order)
    ensures Kept(rows, order[1..]) == Kept(rows, order) - {order[0]}
  {
    assert forall k :: k in order[1..] <==> k in order && k != order[0];
  }

  lemma NewestDrop(q: seq<string>, cap: nat)
    requires |q| > cap
    ensures Newest(q[1..], cap) == Newest(q, cap)
  {
  }

  /** Pops the oldest keys while the dictionary is over its cap. */
  method EvictOldest(order: seq<string>, rows: map<string, Record>)
    returns (keys: seq<string>, kept: map<string, Record>)
    requires Distinct(order) && rows == Kept(rows, order)
    ensures keys == Newest(order, ORDER_SNAPSHOT_CAP) && kept == Kept(rows, keys)
  {
    keys, kept := order, rows;
    while |keys| > ORDER_SNAPSHOT_CAP
      invariant Newest(keys, ORDER_SNAPSHOT_CAP) == Newest(order, ORDER_SNAPSHOT_CAP)
      invariant Distinct(keys) && kept == Kept(rows, keys)
    {
      KeptDrop(rows, keys);
      NewestDrop(keys, ORDER_SNAPSHOT_CAP);
      kept := kept - {keys[0]};
      keys := keys[1..];
    }
  }

  // ---- The adapter's dictionary, updated in place ----

  /** Every handler is one step of the store. */
  class OrderSnapshots {
    var order: seq<string>
    var rows: map<string, Record>
    var queries: multiset<string>

    function Model(): Store
      reads this
    {
      Store(order, rows, queries)
    }

    ghost predicate Consistent()
      reads this
    {
      Valid(Model())
    }

    constructor ()
      ensures Consistent() && Model() == EMPTY
    {
      order, rows, queries := [], map[], multiset{};
    }

    /** Stores the newest snapshot, evicting the oldest while over the cap. */
    method RememberSnapshot(cid: string, record: Record)
      requires Consistent()
      modifies this
      ensures Consistent() && Model() == Remember(old(Model()), cid, record)
    {
      RememberValid(Model(), cid, record);
      FullKept(Model(), cid, record);
      order, rows := EvictOldest(Without(order, cid) + [cid], rows[cid := record]);
    }

    method OnSubmit(cid: string, intent: Intent)
      requires Consistent()
      modifies this
      ensures Consistent() && Model() == Step(old(Model()), Submit(cid, intent))
    {
      RememberSnapshot(cid, FromIntent(intent));
    }

    method OnAck(cid: string, intent: Intent, report: Report)
      requires Consistent()
      modifies this
      ensures Consistent() && Model() == Step(old(Model()), Ack(cid, intent, report))
    {
      RememberSnapshot(cid, AckRecord(Find(Model(), cid), intent, report));
    }

    method OnAmended(cid: string, price: Option<int>, quantity: Option<int>, report: Report, current: Record)
      requires Consistent()
      modifies this
      ensures Consistent() && Model() == Step(old(Model()), Amended(cid, price, quantity, report, current))
    {
      var previous := if cid in rows then rows[cid] else current;
      RememberSnapshot(cid, AmendedRecord(previous, price, quantity, report));
    }

    method OnCancelDone(cid: string, report: Report)
      requires Consistent()
      modifies this
      ensures Consistent() && Model() == Step(old(Model()), CancelDone(cid, report))
    {
      if cid in rows { RememberSnapshot(cid, Fold(rows[cid], report)); }
    }

    /** A thin push merges onto the snapshot, or suspends in an orphan query. */
    method OnThinPush(cid: string, report: Report)
      requires Consistent()
      modifies this
      ensures Consistent() && Model() == Step(old(Model()), ThinPush(cid, report))
    {
      if cid in rows {
        RememberSnapshot(cid, Fold(rows[cid], report));
      } else if cid != "" {
        queries := queries + multiset{cid};
      }
    }

    method OnOrphanAnswer(cid: string, answer: Option<Record>)
      requires Consistent()
      modifies this
      ensures Consistent() && Model() == Step(old(Model()), OrphanAnswer(cid, answer))
    {
      if cid in queries {
        queries := queries - multiset{cid};
        if answer.Some? { RememberSnapshot(cid, answer.value); }
      }
    }

    method OnRichPush(cid: string, record: Record)
      requires Consistent()
      modifies this
      ensures Consistent() && Model() == Step(old(Model()), RichPush(cid, record))
    {
      if cid != "" { RememberSnapshot(cid, record); }
    }

    /** A rejected submit drops its speculative snapshot. */
    method ForgetSnapshot(cid: string)
      requires Consistent()
      modifies this
      ensures Consistent() && Model() == Forget(old(Model()), cid)
    {
      WithoutKeepsDistinct(order, cid);
      order, rows := Without(order, cid), rows - {cid};
    }
  }
}
