/** The IBKR fill/commission join. The gateway reports an execution and its
    commission on separate events in either order; the adapter keeps the fills it
    handed out and the commissions still waiting for their fill, both bounded. */
module IbkrFillJoin {
  import opened Common
  import opened RecencyQueue

  const FILL_JOIN_CAP: nat := 5000

  datatype Fee = Fee(amount: int, currency: Option<string>)

  datatype Terms = Terms(cid: string, instrument: string, quantity: int, price: int, time: int)

  datatype Fill = Fill(execId: string, terms: Terms, fee: Option<Fee>)

  /** An execution as reported; `orderRef` is the reference its handler resolves,
      `fallbackId` the id it makes up when the report carries none. */
  datatype Execution = Execution(
    execId: string, fallbackId: string, orderRef: string, permId: string, instrument: Option<string>,
    shares: int, price: int, time: int, commission: int, currency: string)

  /** Zero commissions and absent ones are the same: no fee is known. */
  function ParseCommission(amount: int, currency: string): Option<Fee> {
    if amount == 0 then None else Some(Fee(amount, if currency == "" then None else Some(currency)))
  }

  function Translate(e: Execution): (r: Option<Fill>)
    ensures r.Some? <==> e.instrument.Some? && e.shares > 0 && e.price > 0 && (e.orderRef != "" || e.permId != "")
    ensures r.Some? ==> r.value.execId == if e.execId != "" then e.execId else e.fallbackId
  {
    var cid := if e.orderRef != "" then e.orderRef else e.permId;
    if e.instrument.None? || e.shares <= 0 || e.price <= 0 || cid == "" then None
    else
      Some(Fill(if e.execId != "" then e.execId else e.fallbackId,
        Terms(cid, e.instrument.value, e.shares, e.price, e.time), ParseCommission(e.commission, e.currency)))
  }

  // ---- Insertion-ordered dictionaries ----

  /** Keys oldest first, and their values. Assigning a present key keeps its place. */
  datatype Table<V> = Table(order: seq<string>, rows: map<string, V>)

  function Restrict<V>(rows: map<string, V>, order: seq<string>): map<string, V> {
    map k | k in rows && k in order :: rows[k]
  }

  function Put<V>(t: Table<V>, k: string, v: V): Table<V> {
    if k in t.rows then Table(t.order, t.rows[k := v])
    else
      var order := Newest(t.order + [k], FILL_JOIN_CAP);
      Table(order, Restrict(t.rows[k := v], order))
  }

  function Pop<V>(t: Table<V>, k: string): Table<V> {
    Table(Without(t.order, k), t.rows - {k})
  }

  ghost predicate Shaped<V>(t: Table<V>) {
    && Distinct(t.order) && |t.order| <= FILL_JOIN_CAP
    && forall k :: k in t.rows <==> k in t.order
  }

  lemma PutShape<V>(t: Table<V>, k: string, v: V)
    requires Shaped(t)
    ensures Shaped(Put(t, k, v)) && k in Put(t, k, v).rows && Put(t, k, v).rows[k] == v
    ensures k in t.rows || |t.rows| < FILL_JOIN_CAP ==> Put(t, k, v).rows == t.rows[k := v]
  {
    DistinctCount(t.order);
    assert t.rows.Keys == Elems(t.order);
    if k !in t.rows {
      var order := Put(t, k, v).order;
      assert order[|order| - 1] == k;
    }
  }

  lemma PopShape<V>(t: Table<V>, k: string)
    requires Shaped(t)
    ensures Shaped(Pop(t, k))
  {
    WithoutKeepsDistinct(t.order, k);
  }

  // ---- Steps ----

  /** `delivered` is every record handed to the engine: published by the live
      handlers or returned by a poll. */
  datatype State = State(records: Table<Fill>, pending: Table<Fee>, delivered: seq<Fill>)

  const EMPTY := State(Table([], map[]), Table([], map[]), [])

  /** An early commission overrides the one the execution carries. */
  function JoinPending(s: State, f: Fill): Fill {
    if f.execId in s.pending.rows then f.(fee := Some(s.pending.rows[f.execId])) else f
  }

  function Sight(s: State, f: Fill): State {
    var joined := JoinPending(s, f);
    State(Put(s.records, f.execId, joined), Pop(s.pending, f.execId), s.delivered + [joined])
  }

  function Report(s: State, execId: string, fee: Option<Fee>): State {
    if fee.None? then s
    else if execId !in s.records.rows then s.(pending := Put(s.pending, execId, fee.value))
    else if s.records.rows[execId].fee == fee then s
    else
      var updated := s.records.rows[execId].(fee := fee);
      s.(records := Put(s.records, execId, updated), delivered := s.delivered + [updated])
  }

  /** `Sighted` is an execution seen live or in a poll; `Reported` a commission. */
  datatype Op = Sighted(execution: Execution) | Reported(execId: string, amount: int, currency: string)

  function Step(s: State, op: Op): State {
    match op
    case Sighted(e) => if Translate(e).Some? then Sight(s, Translate(e).value) else s
    case Reported(execId, amount, currency) =>
      if execId == "" then s else Report(s, execId, ParseCommission(amount, currency))
  }

  function Run(ops: seq<Op>): State {
    if ops == [] then EMPTY else Step(Run(ops[..|ops| - 1]), ops[|ops| - 1])
  }

  /** The engine upserts delivered fills on their platform id. */
  function EngineRows(delivered: seq<Fill>): map<string, Fill> {
    if delivered == [] then map[]
    else
      var last := delivered[|delivered| - 1];
      EngineRows(delivered[..|delivered| - 1])[last.execId := last]
  }

  lemma EngineRowsSnoc(delivered: seq<Fill>, f: Fill)
    ensures EngineRows(delivered + [f]) == EngineRows(delivered)[f.execId := f]
  {
    assert (delivered + [f])[..|delivered|] == delivered;
  }

  // ---- The relational join ----

  /** The execution an operation brings, if it can be translated. */
  function FillOf(op: Op): seq<Fill> {
    if op.Sighted? && Translate(op.execution).Some? then [Translate(op.execution).value] else []
  }

  /** The nonzero commission an operation brings. */
  function FeeOf(op: Op): seq<(string, Fee)> {
    if op.Reported? && op.execId != "" && op.amount != 0 then
      [(op.execId, ParseCommission(op.amount, op.currency).value)]
    else []
  }

  predicate Sights(op: Op, x: string) {
    FillOf(op) != [] && FillOf(op)[0].execId == x
  }

  predicate Charges(op: Op, x: string) {
    FeeOf(op) != [] && FeeOf(op)[0].0 == x
  }

  function Fills(ops: seq<Op>): seq<Fill> {
    if ops == [] then [] else Fills(ops[..|ops| - 1]) + FillOf(ops[|ops| - 1])
  }

  function Fees(ops: seq<Op>): seq<(string, Fee)> {
    if ops == [] then [] else Fees(ops[..|ops| - 1]) + FeeOf(ops[|ops| - 1])
  }

  function LastFee(fees: seq<(string, Fee)>, execId: string): Option<Fee> {
    if fees == [] then None
    else if fees[|fees| - 1].0 == execId then Some(fees[|fees| - 1].1)
    else LastFee(fees[..|fees| - 1], execId)
  }

  function Charged(f: Fill, fees: seq<(string, Fee)>): Fill {
    var fee := LastFee(fees, f.execId);
    if fee.Some? then f.(fee := fee) else f
  }

  /** Executions joined with the last nonzero commission of their id. */
  function Join(fills: seq<Fill>, fees: seq<(string, Fee)>): (r: map<string, Fill>)
    ensures forall k :: k in r ==> r[k].execId == k
  {
    if fills == [] then map[]
    else
      var last := fills[|fills| - 1];
      Join(fills[..|fills| - 1], fees)[last.execId := Charged(last, fees)]
  }

  lemma JoinSnocFill(fills: seq<Fill>, fees: seq<(string, Fee)>, f: Fill)
    ensures Join(fills + [f], fees) == Join(fills, fees)[f.execId := Charged(f, fees)]
  {
    assert (fills + [f])[..|fills|] == fills;
  }

  lemma LastFeeSnoc(fees: seq<(string, Fee)>, execId: string, fee: Fee, k: string)
    ensures LastFee(fees + [(execId, fee)], k) == if k == execId then Some(fee) else LastFee(fees, k)
  {
    assert (fees + [(execId, fee)])[..|fees|] == fees;
  }

  lemma {:induction false} JoinSnocFee(fills: seq<Fill>, fees: seq<(string, Fee)>, execId: string, fee: Fee)
    ensures var was := Join(fills, fees);
            Join(fills, fees + [(execId, fee)]) ==
              if execId in was then was[execId := was[execId].(fee := Some(fee))] else was
  {
    if fills != [] {
      var last := fills[|fills| - 1];
      JoinSnocFee(fills[..|fills| - 1], fees, execId, fee);
      LastFeeSnoc(fees, execId, fee, last.execId);
    }
  }

  // ---- Bounds ----

  lemma StepShaped(s: State, op: Op)
    requires Shaped(s.records) && Shaped(s.pending)
    ensures Shaped(Step(s, op).records) && Shaped(Step(s, op).pending)
  {
    match op
    case Sighted(e) =>
      if Translate(e).Some? {
        var f := Translate(e).value;
        PutShape(s.records, f.execId, JoinPending(s, f));
        PopShape(s.pending, f.execId);
      }
    case Reported(execId, amount, currency) =>
      var fee := ParseCommission(amount, currency);
      if fee.Some? {
        if execId in s.records.rows {
          PutShape(s.records, execId, s.records.rows[execId].(fee := fee));
        } else {
          PutShape(s.pending, execId, fee.value);
        }
      }
  }

  /** Over any run at all, both dictionaries hold at most 5000 ids. */
  lemma {:induction false} JoinStaysBounded(ops: seq<Op>)
    ensures Shaped(Run(ops).records) && Shaped(Run(ops).pending)
    ensures |Run(ops).records.rows| <= FILL_JOIN_CAP && |Run(ops).pending.rows| <= FILL_JOIN_CAP
  {
    if ops != [] {
      JoinStaysBounded(ops[..|ops| - 1]);
      StepShaped(Run(ops[..|ops| - 1]), ops[|ops| - 1]);
    }
    var s := Run(ops);
    DistinctCount(s.records.order);
    DistinctCount(s.pending.order);
    assert s.records.rows.Keys == Elems(s.records.order) && s.pending.rows.Keys == Elems(s.pending.order);
  }

  /** Repeating a commission report hands out nothing new, in any state a run reaches. */
  lemma RepeatedReportIsSilent(ops: seq<Op>, execId: string, amount: int, currency: string)
    ensures var once := Step(Run(ops), Reported(execId, amount, currency));
            Step(once, Reported(execId, amount, currency)).delivered == once.delivered
  {
    JoinStaysBounded(ops);
    var s, fee := Run(ops), ParseCommission(amount, currency);
    if execId in s.records.rows && fee.Some? {
      PutShape(s.records, execId, s.records.rows[execId].(fee := fee));
    }
  }

  // ---- One id, held whenever it is needed ----

  lemma {:induction false} JoinKeys(fills: seq<Fill>, fees: seq<(string, Fee)>, k: string)
    ensures k in Join(fills, fees) <==> exists i :: 0 <= i < |fills| && fills[i].execId == k
  {
    if fills != [] {
      var n := |fills| - 1;
      JoinKeys(fills[..n], fees, k);
      assert fills == fills[..n] + [fills[n]];
      if fills[n].execId != k && k in Join(fills, fees) {
        var i :| 0 <= i < n && fills[..n][i].execId == k;
        assert fills[i].execId == k;
      }
      if i :| 0 <= i < |fills| && fills[i].execId == k {
        assert i < n ==> fills[..n][i].execId == k;
      }
    }
  }

  /** At this step the id's record or early commission has not been evicted: a
      commission for a sighted execution finds its record, and the execution finds
      the commission that came before it. */
  ghost predicate HeldAt(front: seq<Op>, op: Op, x: string) {
    && (FeeOf(op) != [] && FeeOf(op)[0].0 == x && x in Join(Fills(front), Fees(front)) ==> x in Run(front).records.rows)
    && (FillOf(op) != [] && FillOf(op)[0].execId == x && LastFee(Fees(front), x).Some? ==> x in Run(front).pending.rows)
  }

  ghost predicate Held(ops: seq<Op>, x: string) {
    ops == [] || (Held(ops[..|ops| - 1], x) && HeldAt(ops[..|ops| - 1], ops[|ops| - 1], x))
  }

  ghost predicate SightedOnce(fills: seq<Fill>, x: string) {
    forall i, j :: 0 <= i < j < |fills| && fills[i].execId == x ==> fills[j].execId != x
  }

  function Row(m: map<string, Fill>, x: string): Option<Fill> {
    if x in m then Some(m[x]) else None
  }

  ghost predicate Keyed(rows: map<string, Fill>) {
    forall k :: k in rows ==> rows[k].execId == k
  }

  lemma PutKeyed(t: Table<Fill>, f: Fill)
    requires Keyed(t.rows)
    ensures Keyed(Put(t, f.execId, f).rows)
  {
  }

  ghost predicate TracksId(s: State, fills: seq<Fill>, fees: seq<(string, Fee)>, x: string) {
    && Shaped(s.records) && Shaped(s.pending)
    && Keyed(s.records.rows)
    && Row(EngineRows(s.delivered), x) == Row(Join(fills, fees), x)
    && (x in s.records.rows ==> Row(Join(fills, fees), x) == Some(s.records.rows[x]))
    && (x in s.pending.rows ==> x !in Join(fills, fees) && LastFee(fees, x) == Some(s.pending.rows[x]))
  }

  lemma OwnSighting(s: State, fills: seq<Fill>, fees: seq<(string, Fee)>, f: Fill)
    requires TracksId(s, fills, fees, f.execId) && f.execId !in Join(fills, fees)
    requires LastFee(fees, f.execId).Some? ==> f.execId in s.pending.rows
    ensures JoinPending(s, f) == Charged(f, fees)
  {
  }

  lemma SightTracksId(s: State, fills: seq<Fill>, fees: seq<(string, Fee)>, f: Fill, x: string)
    requires TracksId(s, fills, fees, x)
    requires f.execId == x ==> x !in Join(fills, fees) && (LastFee(fees, x).Some? ==> x in s.pending.rows)
    ensures TracksId(Sight(s, f), fills + [f], fees, x)
  {
    var joined := JoinPending(s, f);
    if f.execId == x { OwnSighting(s, fills, fees, f); }
    PutShape(s.records, f.execId, joined);
    PopShape(s.pending, f.execId);
    JoinSnocFill(fills, fees, f);
    EngineRowsSnoc(s.delivered, joined);
    PutKeyed(s.records, joined);
  }

  lemma EarlyFeeTracksId(
    s: State, fills: seq<Fill>, fees: seq<(string, Fee)>, execId: string, fee: Fee, x: string)
    requires TracksId(s, fills, fees, x) && execId !in s.records.rows
    requires execId == x ==> x !in Join(fills, fees)
    ensures TracksId(Report(s, execId, Some(fee)), fills, fees + [(execId, fee)], x)
  {
    JoinSnocFee(fills, fees, execId, fee);
    LastFeeSnoc(fees, execId, fee, x);
    PutShape(s.pending, execId, fee);
  }

  lemma LateFeeTracksId(
    s: State, fills: seq<Fill>, fees: seq<(string, Fee)>, execId: string, fee: Fee, x: string)
    requires TracksId(s, fills, fees, x) && execId in s.records.rows
    ensures TracksId(Report(s, execId, Some(fee)), fills, fees + [(execId, fee)], x)
  {
    var updated := s.records.rows[execId].(fee := Some(fee));
    JoinSnocFee(fills, fees, execId, fee);
    LastFeeSnoc(fees, execId, fee, x);
    PutShape(s.records, execId, updated);
    PutKeyed(s.records, updated);
    EngineRowsSnoc(s.delivered, updated);
  }

  lemma OnceInPrefix(fills: seq<Fill>, more: seq<Fill>, fees: seq<(string, Fee)>, x: string)
    requires SightedOnce(fills + more, x)
    ensures SightedOnce(fills, x)
    ensures more != [] && more[0].execId == x ==> x !in Join(fills, fees)
  {
    var all := fills + more;
    assert forall i :: 0 <= i < |fills| ==> all[i] == fills[i];
    if more != [] && more[0].execId == x {
      assert all[|fills|] == more[0];
      JoinKeys(fills, fees, x);
    }
  }

  lemma {:induction false} RunTracksId(ops: seq<Op>, x: string)
    requires SightedOnce(Fills(ops), x) && Held(ops, x)
    ensures TracksId(Run(ops), Fills(ops), Fees(ops), x)
  {
    if ops != [] {
      var front, op := ops[..|ops| - 1], ops[|ops| - 1];
      var fills, fees := Fills(front), Fees(front);
      OnceInPrefix(fills, FillOf(op), fees, x);
      RunTracksId(front, x);
      if FillOf(op) != [] {
        assert fees + FeeOf(op) == fees;
        SightTracksId(Run(front), fills, fees, FillOf(op)[0], x);
      } else if FeeOf(op) != [] {
        assert fills + FillOf(op) == fills;
        if FeeOf(op)[0].0 in Run(front).records.rows {
          LateFeeTracksId(Run(front), fills, fees, FeeOf(op)[0].0, FeeOf(op)[0].1, x);
        } else {
          EarlyFeeTracksId(Run(front), fills, fees, FeeOf(op)[0].0, FeeOf(op)[0].1, x);
        }
      } else {
        assert fills + FillOf(op) == fills && fees + FeeOf(op) == fees;
      }
    }
  }

  // ---- When an id is held ----

  lemma PutKeepsHeld<V>(t: Table<V>, k: string, v: V, x: string, others: set<string>)
    requires Shaped(t) && HeldAmong(t.order, x, others, FILL_JOIN_CAP) && (k == x || k in others)
    ensures HeldAmong(Put(t, k, v).order, x, others, FILL_JOIN_CAP)
  {
    if k !in t.rows {
      assert Without(t.order, k) == t.order;
      StaysHeld(t.order, x, k, others, FILL_JOIN_CAP);
    }
  }

  lemma PopKeepsHeld<V>(t: Table<V>, k: string, x: string, others: set<string>)
    requires Shaped(t) && HeldAmong(t.order, x, others, FILL_JOIN_CAP) && k != x
    ensures HeldAmong(Pop(t, k).order, x, others, FILL_JOIN_CAP)
  {
    WithoutKeepsDistinct(t.order, k);
    AfterWithout(t.order, x, k);
  }

  lemma PutHolds<V>(t: Table<V>, x: string, v: V, others: set<string>)
    requires Shaped(t) && x !in t.rows && |others| < FILL_JOIN_CAP
    ensures HeldAmong(Put(t, x, v).order, x, others, FILL_JOIN_CAP)
  {
    PutShape(t, x, v);
    LastHasNothingAfter(Put(t, x, v).order);
  }

  lemma StepKeepsRecord(s: State, op: Op, x: string, others: set<string>)
    requires Shaped(s.records) && HeldAmong(s.records.order, x, others, FILL_JOIN_CAP)
    requires FillOf(op) != [] ==> FillOf(op)[0].execId in others + {x}
    ensures HeldAmong(Step(s, op).records.order, x, others, FILL_JOIN_CAP)
  {
    if FillOf(op) != [] {
      PutKeepsHeld(s.records, FillOf(op)[0].execId, JoinPending(s, FillOf(op)[0]), x, others);
    }
  }

  lemma StepKeepsWaiting(s: State, op: Op, x: string, others: set<string>)
    requires Shaped(s.pending) && HeldAmong(s.pending.order, x, others, FILL_JOIN_CAP)
    requires FeeOf(op) != [] ==> FeeOf(op)[0].0 in others + {x}
    requires FillOf(op) != [] ==> FillOf(op)[0].execId != x
    ensures HeldAmong(Step(s, op).pending.order, x, others, FILL_JOIN_CAP)
  {
    if FillOf(op) != [] {
      PopKeepsHeld(s.pending, FillOf(op)[0].execId, x, others);
    } else if FeeOf(op) != [] && FeeOf(op)[0].0 !in s.records.rows {
      PutKeepsHeld(s.pending, FeeOf(op)[0].0, FeeOf(op)[0].1, x, others);
    }
  }

  /** A record stays while fewer than 5000 other executions are sighted after it. */
  lemma {:induction false} RecordStays(ops: seq<Op>, i: nat, x: string, others: set<string>)
    requires i < |ops| && Sights(ops[i], x) && |others| < FILL_JOIN_CAP
    requires x !in Run(ops[..i]).records.rows
    requires forall j :: i < j < |ops| && FillOf(ops[j]) != [] ==> FillOf(ops[j])[0].execId in others + {x}
    ensures x in Run(ops).records.rows && HeldAmong(Run(ops).records.order, x, others, FILL_JOIN_CAP)
    decreases |ops|
  {
    var front, op := ops[..|ops| - 1], ops[|ops| - 1];
    var s := Run(front);
    JoinStaysBounded(front);
    JoinStaysBounded(ops);
    if i == |ops| - 1 {
      PutHolds(s.records, x, JoinPending(s, FillOf(op)[0]), others);
    } else {
      assert front[..i] == ops[..i];
      RecordStays(front, i, x, others);
      StepKeepsRecord(s, op, x, others);
    }
  }

  lemma FeeEnters(s: State, op: Op, x: string, others: set<string>)
    requires Shaped(s.pending) && Charges(op, x) && |others| < FILL_JOIN_CAP
    requires x !in s.records.rows && x !in s.pending.rows
    ensures HeldAmong(Step(s, op).pending.order, x, others, FILL_JOIN_CAP)
  {
    PutHolds(s.pending, x, FeeOf(op)[0].1, others);
  }

  lemma {:induction false} WaitingIsHeld(ops: seq<Op>, i: nat, x: string, others: set<string>)
    requires i < |ops| && Charges(ops[i], x) && |others| < FILL_JOIN_CAP
    requires x !in Run(ops[..i]).records.rows && x !in Run(ops[..i]).pending.rows
    requires forall j :: i < j < |ops| && FeeOf(ops[j]) != [] ==> FeeOf(ops[j])[0].0 in others + {x}
    requires forall j :: i < j < |ops| ==> !Sights(ops[j], x)
    ensures HeldAmong(Run(ops).pending.order, x, others, FILL_JOIN_CAP)
    decreases |ops|
  {
    var front, op := ops[..|ops| - 1], ops[|ops| - 1];
    JoinStaysBounded(front);
    if i == |ops| - 1 {
      FeeEnters(Run(front), op, x, others);
    } else {
      assert front[..i] == ops[..i];
      WaitingIsHeld(front, i, x, others);
      assert !Sights(op, x);
      StepKeepsWaiting(Run(front), op, x, others);
    }
  }

  /** An early commission waits while fewer than 5000 other ids are reported after
      it, until its execution is sighted. */
  lemma {:induction false} EarlyFeeStays(ops: seq<Op>, i: nat, x: string, others: set<string>)
    requires i < |ops| && Charges(ops[i], x) && |others| < FILL_JOIN_CAP
    requires x !in Run(ops[..i]).records.rows && x !in Run(ops[..i]).pending.rows
    requires forall j :: i < j < |ops| && FeeOf(ops[j]) != [] ==> FeeOf(ops[j])[0].0 in others + {x}
    requires forall j :: i < j < |ops| ==> !Sights(ops[j], x)
    ensures x in Run(ops).pending.rows
  {
    WaitingIsHeld(ops, i, x, others);
    JoinStaysBounded(ops);
  }

  // ---- Few ids outstanding ----

  /** The id an operation is about, if it has any effect. */
  function Mention(op: Op): Option<string> {
    if FillOf(op) != [] then Some(FillOf(op)[0].execId)
    else if FeeOf(op) != [] then Some(FeeOf(op)[0].0)
    else None
  }

  ghost function OthersBetween(ops: seq<Op>, x: string, i: nat, j: nat): set<string>
    requires i < j <= |ops|
  {
    set k | i < k < j && Mention(ops[k]).Some? && Mention(ops[k]).value != x :: Mention(ops[k]).value
  }

  /** Fewer than 5000 other ids are mentioned between any two mentions of the id. */
  ghost predicate FewBetween(ops: seq<Op>, x: string) {
    forall i, j :: 0 <= i < j < |ops| && Mention(ops[i]) == Some(x) && Mention(ops[j]) == Some(x) ==>
      |OthersBetween(ops, x, i, j)| < FILL_JOIN_CAP
  }

  /** What one more operation adds to the executions and commissions of an id. */
  lemma OneMoreOp(ops: seq<Op>, x: string)
    requires ops != []
    ensures var front, op := ops[..|ops| - 1], ops[|ops| - 1];
            && (x in Join(Fills(ops), Fees(ops)) <==> x in Join(Fills(front), Fees(front)) || Sights(op, x))
            && LastFee(Fees(ops), x) == if Charges(op, x) then Some(FeeOf(op)[0].1) else LastFee(Fees(front), x)
  {
    var front, op := ops[..|ops| - 1], ops[|ops| - 1];
    var fills, fees := Fills(front), Fees(front);
    if FillOf(op) != [] {
      assert fees + FeeOf(op) == fees;
      JoinSnocFill(fills, fees, FillOf(op)[0]);
    } else if FeeOf(op) != [] {
      assert fills + FillOf(op) == fills;
      JoinSnocFee(fills, fees, FeeOf(op)[0].0, FeeOf(op)[0].1);
      LastFeeSnoc(fees, FeeOf(op)[0].0, FeeOf(op)[0].1, x);
    } else {
      assert fills + FillOf(op) == fills && fees + FeeOf(op) == fees;
    }
  }

  predicate SeenIn(ops: seq<Op>, x: string) {
    ops != [] && (Sights(ops[|ops| - 1], x) || SeenIn(ops[..|ops| - 1], x))
  }

  predicate ChargedIn(ops: seq<Op>, x: string) {
    ops != [] && (Charges(ops[|ops| - 1], x) || ChargedIn(ops[..|ops| - 1], x))
  }

  lemma {:induction false} SeenMeans(ops: seq<Op>, x: string)
    ensures SeenIn(ops, x) <==> x in Join(Fills(ops), Fees(ops))
    ensures ChargedIn(ops, x) <==> LastFee(Fees(ops), x).Some?
  {
    if ops != [] {
      SeenMeans(ops[..|ops| - 1], x);
      OneMoreOp(ops, x);
    }
  }

  lemma StepKeys(s: State, op: Op, x: string)
    ensures x in Step(s, op).records.rows ==> x in s.records.rows || Sights(op, x)
    ensures x in Step(s, op).pending.rows ==> x in s.pending.rows || Charges(op, x)
  {
  }

  lemma {:induction false} HeldAreSeen(ops: seq<Op>, x: string)
    ensures x in Run(ops).records.rows ==> SeenIn(ops, x)
    ensures x in Run(ops).pending.rows ==> ChargedIn(ops, x)
  {
    if ops != [] {
      HeldAreSeen(ops[..|ops| - 1], x);
      StepKeys(Run(ops[..|ops| - 1]), ops[|ops| - 1], x);
    }
  }

  lemma {:induction false} FirstSighting(ops: seq<Op>, x: string) returns (i: nat)
    requires SeenIn(ops, x)
    ensures i < |ops| && Sights(ops[i], x) && !SeenIn(ops[..i], x)
  {
    var front := ops[..|ops| - 1];
    if SeenIn(front, x) {
      i := FirstSighting(front, x);
      assert ops[..i] == front[..i];
    } else {
      i := |ops| - 1;
    }
  }

  lemma {:induction false} FirstReport(ops: seq<Op>, x: string) returns (i: nat)
    requires ChargedIn(ops, x)
    ensures i < |ops| && Charges(ops[i], x) && !ChargedIn(ops[..i], x)
  {
    var front := ops[..|ops| - 1];
    if ChargedIn(front, x) {
      i := FirstReport(front, x);
      assert ops[..i] == front[..i];
    } else {
      i := |ops| - 1;
    }
  }

  lemma {:induction false} SightingIsSeen(ops: seq<Op>, j: nat, x: string)
    requires j < |ops| && Sights(ops[j], x)
    ensures SeenIn(ops, x)
  {
    if j < |ops| - 1 { SightingIsSeen(ops[..|ops| - 1], j, x); }
  }

  lemma SeenStays(ops: seq<Op>, i: nat, x: string)
    requires i <= |ops| && SeenIn(ops[..i], x)
    ensures SeenIn(ops, x)
  {
    var j := FirstSighting(ops[..i], x);
    SightingIsSeen(ops, j, x);
  }

  /** The ids mentioned after `i` are among the others, the id itself aside. */
  lemma MentionedAmong(front: seq<Op>, op: Op, i: nat, x: string) returns (others: set<string>)
    requires FewBetween(front + [op], x) && i < |front|
    requires Mention(front[i]) == Some(x) && Mention(op) == Some(x)
    ensures |others| < FILL_JOIN_CAP
    ensures forall j :: i < j < |front| && Mention(front[j]).Some? ==> Mention(front[j]).value in others + {x}
  {
    var ops := front + [op];
    assert ops[i] == front[i] && ops[|front|] == op;
    others := OthersBetween(ops, x, i, |front|);
    forall j | i < j < |front| && Mention(front[j]).Some? ensures Mention(front[j]).value in others + {x} {
      assert ops[j] == front[j];
    }
  }

  /** A late commission finds its record. */
  lemma LateFeeFinds(front: seq<Op>, op: Op, x: string)
    requires FewBetween(front + [op], x) && Charges(op, x) && SeenIn(front, x)
    ensures x in Run(front).records.rows
  {
    var i := FirstSighting(front, x);
    HeldAreSeen(front[..i], x);
    var others := MentionedAmong(front, op, i, x);
    forall j | i < j < |front| && FillOf(front[j]) != [] ensures FillOf(front[j])[0].execId in others + {x} {
      assert Mention(front[j]) == Some(FillOf(front[j])[0].execId);
    }
    RecordStays(front, i, x, others);
  }

  /** An execution finds the commission that came before it. */
  lemma SightingFinds(front: seq<Op>, op: Op, x: string)
    requires FewBetween(front + [op], x) && Sights(op, x) && !SeenIn(front, x) && ChargedIn(front, x)
    ensures x in Run(front).pending.rows
  {
    var i := FirstReport(front, x);
    HeldAreSeen(front[..i], x);
    if SeenIn(front[..i], x) { SeenStays(front, i, x); }
    var others := MentionedAmong(front, op, i, x);
    forall j | i < j < |front| && FeeOf(front[j]) != [] ensures FeeOf(front[j])[0].0 in others + {x} {
      assert Mention(front[j]) == Some(FeeOf(front[j])[0].0);
    }
    forall j | i < j < |front| ensures !Sights(front[j], x) {
      if Sights(front[j], x) { SightingIsSeen(front, j, x); }
    }
    EarlyFeeStays(front, i, x, others);
  }

  lemma FewInPrefix(ops: seq<Op>, x: string)
    requires ops != [] && FewBetween(ops, x)
    ensures FewBetween(ops[..|ops| - 1], x)
  {
    var front := ops[..|ops| - 1];
    forall i, j | 0 <= i < j < |front| && Mention(front[i]) == Some(x) && Mention(front[j]) == Some(x)
      ensures |OthersBetween(front, x, i, j)| < FILL_JOIN_CAP
    {
      assert OthersBetween(front, x, i, j) == OthersBetween(ops, x, i, j);
    }
  }

  lemma HeldHere(ops: seq<Op>, x: string)
    requires ops != [] && FewBetween(ops, x) && (Sights(ops[|ops| - 1], x) ==> !SeenIn(ops[..|ops| - 1], x))
    ensures HeldAt(ops[..|ops| - 1], ops[|ops| - 1], x)
  {
    var front, op := ops[..|ops| - 1], ops[|ops| - 1];
    assert ops == front + [op];
    SeenMeans(front, x);
    if Charges(op, x) && SeenIn(front, x) { LateFeeFinds(front, op, x); }
    if Sights(op, x) && ChargedIn(front, x) { SightingFinds(front, op, x); }
  }

  lemma NoSecondSighting(ops: seq<Op>, x: string)
    requires ops != [] && SightedOnce(Fills(ops), x)
    ensures SightedOnce(Fills(ops[..|ops| - 1]), x)
    ensures Sights(ops[|ops| - 1], x) ==> !SeenIn(ops[..|ops| - 1], x)
  {
    var front, op := ops[..|ops| - 1], ops[|ops| - 1];
    OnceInPrefix(Fills(front), FillOf(op), Fees(front), x);
    SeenMeans(front, x);
  }

  lemma {:induction false} FewAreHeld(ops: seq<Op>, x: string)
    requires SightedOnce(Fills(ops), x) && FewBetween(ops, x)
    ensures Held(ops, x)
  {
    if ops != [] {
      NoSecondSighting(ops, x);
      FewInPrefix(ops, x);
      FewAreHeld(ops[..|ops| - 1], x);
      HeldHere(ops, x);
    }
  }

  // ---- The join ----

  /** In a run of any length, an id sighted once, with fewer than 5000 other ids
      mentioned between any two of its mentions, ends with its execution joined
      with its last nonzero commission, or with the fee the execution carried. */
  lemma JoinPerId(ops: seq<Op>, x: string)
    requires SightedOnce(Fills(ops), x) && FewBetween(ops, x)
    ensures Row(EngineRows(Run(ops).delivered), x) == Row(Join(Fills(ops), Fees(ops)), x)
  {
    FewAreHeld(ops, x);
    RunTracksId(ops, x);
  }

  /** Every execution is sighted once and no id has 5000 others between two of its
      mentions. */
  ghost predicate Orderly(ops: seq<Op>) {
    && (forall x :: SightedOnce(Fills(ops), x))
    && (forall x :: FewBetween(ops, x))
  }

  /** Whatever the interleaving, the engine ends with the join. */
  lemma FillCommissionJoin(ops: seq<Op>)
    requires Orderly(ops)
    ensures EngineRows(Run(ops).delivered) == Join(Fills(ops), Fees(ops))
  {
    forall x ensures Row(EngineRows(Run(ops).delivered), x) == Row(Join(Fills(ops), Fees(ops)), x) {
      JoinPerId(ops, x);
    }
    RowsDecide(EngineRows(Run(ops).delivered), Join(Fills(ops), Fees(ops)));
  }

  lemma RowsDecide(p: map<string, Fill>, q: map<string, Fill>)
    requires forall x :: Row(p, x) == Row(q, x)
    ensures p == q
  {
    forall x ensures (x in p <==> x in q) && (x in p && x in q ==> p[x] == q[x]) {
      assert Row(p, x) == Row(q, x);
    }
  }

  lemma {:induction false} JoinedRow(fills: seq<Fill>, fees: seq<(string, Fee)>, i: nat)
    requires i < |fills| && SightedOnce(fills, fills[i].execId)
    ensures Row(Join(fills, fees), fills[i].execId) == Some(Charged(fills[i], fees))
  {
    var n := |fills| - 1;
    if i < n {
      assert forall j :: 0 <= j < n ==> fills[..n][j] == fills[j];
      JoinedRow(fills[..n], fees, i);
    }
  }

  // ---- What the engine's row of an execution says ----

  /** The last nonzero commission of the execution. */
  ghost predicate LastCharge(ops: seq<Op>, x: string, j: int) {
    && 0 <= j < |ops| && ops[j].Reported? && ops[j].execId == x && ops[j].amount != 0
    && forall k :: j < k < |ops| && ops[k].Reported? && ops[k].execId == x ==> ops[k].amount == 0
  }

  ghost predicate NeverCharged(ops: seq<Op>, x: string) {
    forall k :: 0 <= k < |ops| && ops[k].Reported? && ops[k].execId == x ==> ops[k].amount == 0
  }

  /** The fee of a reported amount, in its currency when one is told. */
  predicate IsFee(fee: Option<Fee>, amount: int, currency: string) {
    && fee.Some? && fee.value.amount == amount
    && (fee.value.currency == None <==> currency == "") && (currency != "" ==> fee.value.currency == Some(currency))
  }

  lemma FeesOfMore(front: seq<Op>, op: Op, x: string)
    requires x != ""
    ensures LastFee(Fees(front + [op]), x) ==
            if op.Reported? && op.execId == x && op.amount != 0 then ParseCommission(op.amount, op.currency)
            else LastFee(Fees(front), x)
  {
    assert (front + [op])[..|front|] == front;
    if FeeOf(op) != [] {
      LastFeeSnoc(Fees(front), FeeOf(op)[0].0, FeeOf(op)[0].1, x);
    } else {
      assert Fees(front) + FeeOf(op) == Fees(front);
    }
  }

  lemma {:induction false} LastChargeIsTheFee(ops: seq<Op>, x: string, j: nat)
    requires x != "" && LastCharge(ops, x, j)
    ensures IsFee(LastFee(Fees(ops), x), ops[j].amount, ops[j].currency)
  {
    var front, last := ops[..|ops| - 1], ops[|ops| - 1];
    assert ops == front + [last];
    FeesOfMore(front, last, x);
    if j < |front| { LastChargeIsTheFee(front, x, j); }
  }

  lemma {:induction false} NeverChargedHasNoFee(ops: seq<Op>, x: string)
    requires x != "" && NeverCharged(ops, x)
    ensures LastFee(Fees(ops), x) == None
  {
    if ops != [] {
      var front, last := ops[..|ops| - 1], ops[|ops| - 1];
      assert ops == front + [last];
      FeesOfMore(front, last, x);
      assert NeverCharged(front, x);
      NeverChargedHasNoFee(front, x);
    }
  }

  lemma {:induction false} FillAt(ops: seq<Op>, i: nat) returns (k: nat)
    requires i < |ops| && FillOf(ops[i]) != []
    ensures k < |Fills(ops)| && Fills(ops)[k] == FillOf(ops[i])[0]
  {
    var n := |ops| - 1;
    if i < n { k := FillAt(ops[..n], i); } else { k := |Fills(ops[..n])|; }
  }

  /** The row carries the execution's own numbers, under its order reference, or its
      permanent id when it has none. */
  predicate Shows(f: Fill, e: Execution) {
    && f.terms.quantity == e.shares && f.terms.price == e.price && f.terms.time == e.time
    && Some(f.terms.instrument) == e.instrument && f.terms.cid == (if e.orderRef != "" then e.orderRef else e.permId)
  }

  /** An execution that lacks an instrument, a size, a price or a reference, a report
      about no execution and a zero commission change nothing. */
  lemma UselessOpsAreSilent(s: State, op: Op)
    requires match op
             case Sighted(e) => e.instrument == None || e.shares <= 0 || e.price <= 0 || (e.orderRef == "" && e.permId == "")
             case Reported(execId, amount, _) => execId == "" || amount == 0
    ensures Step(s, op) == s
  {
  }

  /** Whatever the interleaving and whatever happens to other ids, the engine's row of
      an execution shows what it reported, with the last nonzero commission of its
      id, or else the commission it came with. */
  lemma RowShowsExecution(ops: seq<Op>, i: nat) returns (f: Fill)
    requires i < |ops| && ops[i].Sighted? && ops[i].execution.execId != ""
    requires var e := ops[i].execution;
             e.instrument.Some? && e.shares > 0 && e.price > 0 && (e.orderRef != "" || e.permId != "")
    requires SightedOnce(Fills(ops), ops[i].execution.execId) && FewBetween(ops, ops[i].execution.execId)
    ensures Row(EngineRows(Run(ops).delivered), ops[i].execution.execId) == Some(f) && Shows(f, ops[i].execution)
    ensures forall j :: LastCharge(ops, ops[i].execution.execId, j) ==> IsFee(f.fee, ops[j].amount, ops[j].currency)
    ensures var e := ops[i].execution;
            NeverCharged(ops, e.execId) ==>
              if e.commission == 0 then f.fee == None else IsFee(f.fee, e.commission, e.currency)
  {
    var e := ops[i].execution;
    var k := FillAt(ops, i);
    JoinPerId(ops, e.execId);
    JoinedRow(Fills(ops), Fees(ops), k);
    f := Charged(Fills(ops)[k], Fees(ops));
    forall j | LastCharge(ops, e.execId, j) ensures IsFee(f.fee, ops[j].amount, ops[j].currency) {
      LastChargeIsTheFee(ops, e.execId, j);
    }
    if NeverCharged(ops, e.execId) { NeverChargedHasNoFee(ops, e.execId); }
  }

  lemma SameKey(a: seq<Fill>, b: seq<Fill>, fees: seq<(string, Fee)>, fees': seq<(string, Fee)>, x: string)
    requires multiset(a) == multiset(b) && x in Join(a, fees)
    ensures x in Join(b, fees')
  {
    JoinKeys(a, fees, x);
    JoinKeys(b, fees', x);
    var i :| 0 <= i < |a| && a[i].execId == x;
    assert a[i] in multiset(b);
  }

  lemma SameRow(a: seq<Fill>, b: seq<Fill>, fees: seq<(string, Fee)>, fees': seq<(string, Fee)>, x: string)
    requires multiset(a) == multiset(b) && SightedOnce(a, x) && SightedOnce(b, x)
    requires LastFee(fees, x) == LastFee(fees', x)
    ensures Row(Join(a, fees), x) == Row(Join(b, fees'), x)
  {
    if x in Join(a, fees) {
      JoinKeys(a, fees, x);
      var i :| 0 <= i < |a| && a[i].execId == x;
      assert a[i] in multiset(b);
      var j :| 0 <= j < |b| && b[j] == a[i];
      JoinedRow(a, fees, i);
      JoinedRow(b, fees', j);
    }
    if x in Join(b, fees') { SameKey(b, a, fees', fees, x); }
  }

  lemma SameJoin(a: seq<Fill>, b: seq<Fill>, fees: seq<(string, Fee)>, fees': seq<(string, Fee)>)
    requires multiset(a) == multiset(b)
    requires forall x :: SightedOnce(a, x)
    requires forall x :: SightedOnce(b, x)
    requires forall x :: LastFee(fees, x) == LastFee(fees', x)
    ensures Join(a, fees) == Join(b, fees')
  {
    forall x ensures Row(Join(a, fees), x) == Row(Join(b, fees'), x) { SameRow(a, b, fees, fees', x); }
    RowsDecide(Join(a, fees), Join(b, fees'));
  }

  /** Two runs of the same executions, in any order, that report the same last
      nonzero commission per id leave the engine with the same rows. */
  lemma {:induction false} Confluence(a: seq<Op>, b: seq<Op>)
    requires Orderly(a) && Orderly(b) && multiset(Fills(a)) == multiset(Fills(b))
    requires forall x :: LastFee(Fees(a), x) == LastFee(Fees(b), x)
    ensures EngineRows(Run(a).delivered) == EngineRows(Run(b).delivered)
  {
    FillCommissionJoin(a);
    FillCommissionJoin(b);
    SameJoin(Fills(a), Fills(b), Fees(a), Fees(b));
  }

  /** The join after one more operation. */
  function JoinedMore(join: map<string, Fill>, fees: seq<(string, Fee)>, op: Op): map<string, Fill> {
    if FillOf(op) != [] then join[FillOf(op)[0].execId := Charged(FillOf(op)[0], fees)]
    else if FeeOf(op) != [] && FeeOf(op)[0].0 in join then
      join[FeeOf(op)[0].0 := join[FeeOf(op)[0].0].(fee := Some(FeeOf(op)[0].1))]
    else join
  }

  lemma JoinOneMore(ops: seq<Op>)
    requires ops != []
    ensures var front, op := ops[..|ops| - 1], ops[|ops| - 1];
            Join(Fills(ops), Fees(ops)) == JoinedMore(Join(Fills(front), Fees(front)), Fees(front), op)
  {
    var front, op := ops[..|ops| - 1], ops[|ops| - 1];
    var fills, fees := Fills(front), Fees(front);
    if FillOf(op) != [] {
      assert fees + FeeOf(op) == fees;
      JoinSnocFill(fills, fees, FillOf(op)[0]);
    } else if FeeOf(op) != [] {
      assert fills + FillOf(op) == fills;
      JoinSnocFee(fills, fees, FeeOf(op)[0].0, FeeOf(op)[0].1);
    } else {
      assert fills + FillOf(op) == fills && fees + FeeOf(op) == fees;
    }
  }

  // ---- What a second sighting does ----

  /** An execution sighted before has no commission waiting, so it goes out as it came. */
  lemma SecondSighting(s: State, fills: seq<Fill>, fees: seq<(string, Fee)>, f: Fill)
    requires TracksId(s, fills, fees, f.execId) && f.execId in Join(fills, fees)
    ensures JoinPending(s, f) == f && Row(EngineRows(Sight(s, f).delivered), f.execId) == Some(f)
  {
    EngineRowsSnoc(s.delivered, f);
  }

  lemma ChargedIsItself(f: Fill, fees: seq<(string, Fee)>)
    ensures Charged(f, fees) == f <==> LastFee(fees, f.execId) == None || LastFee(fees, f.execId) == f.fee
  {
  }

  lemma AfterSighting(ops: seq<Op>, e: Execution, f: Fill)
    requires Translate(e) == Some(f)
    ensures Run(ops + [Sighted(e)]) == Sight(Run(ops), f)
    ensures Join(Fills(ops + [Sighted(e)]), Fees(ops + [Sighted(e)])) ==
            Join(Fills(ops), Fees(ops))[f.execId := Charged(f, Fees(ops))]
  {
    assert (ops + [Sighted(e)])[..|ops|] == ops;
    assert FillOf(Sighted(e)) == [f];
    JoinOneMore(ops + [Sighted(e)]);
  }

  /** One sighting per id is needed. A second one, say live after a poll, finds no
      waiting commission and hands the execution out as it came, so the join
      survives exactly when it carries the last commission or none was reported. */
  lemma {:induction false} ResightingForgetsFee(ops: seq<Op>, e: Execution, f: Fill)
    requires Translate(e) == Some(f) && SightedOnce(Fills(ops), f.execId) && FewBetween(ops, f.execId)
    requires f.execId in Join(Fills(ops), Fees(ops))
    ensures var again := ops + [Sighted(e)];
            && Row(EngineRows(Run(again).delivered), f.execId) == Some(f)
            && (Row(EngineRows(Run(again).delivered), f.execId) == Row(Join(Fills(again), Fees(again)), f.execId)
                <==> LastFee(Fees(ops), f.execId) == None || LastFee(Fees(ops), f.execId) == f.fee)
  {
    FewAreHeld(ops, f.execId);
    RunTracksId(ops, f.execId);
    SecondSighting(Run(ops), Fills(ops), Fees(ops), f);
    AfterSighting(ops, e, f);
    ChargedIsItself(f, Fees(ops));
  }

  // ---- Records of one id ----

  ghost predicate TermsOf(s: State, join: map<string, Fill>, x: string) {
    && Keyed(s.records.rows)
    && (x in s.records.rows ==> x in join && s.records.rows[x].terms == join[x].terms)
    && (forall d :: d in s.delivered && d.execId == x ==> x in join && d.terms == join[x].terms)
  }

  lemma SightKeepsTerms(s: State, join: map<string, Fill>, f: Fill, charged: Fill, x: string)
    requires TermsOf(s, join, x) && (f.execId == x ==> x !in join) && charged.terms == f.terms
    ensures TermsOf(Sight(s, f), join[f.execId := charged], x)
  {
    PutKeyed(s.records, JoinPending(s, f));
  }

  lemma ReportKeepsTerms(s: State, join: map<string, Fill>, execId: string, fee: Fee, x: string)
    requires TermsOf(s, join, x)
    ensures TermsOf(Report(s, execId, Some(fee)),
              if execId in join then join[execId := join[execId].(fee := Some(fee))] else join, x)
  {
    var t := Report(s, execId, Some(fee));
    if execId in s.records.rows {
      var updated := s.records.rows[execId].(fee := Some(fee));
      PutKeyed(s.records, updated);
      assert forall d :: d in t.delivered ==> d in s.delivered || d == updated;
    }
  }

  lemma StepKeepsTerms(s: State, join: map<string, Fill>, fees: seq<(string, Fee)>, op: Op, x: string)
    requires TermsOf(s, join, x) && (Sights(op, x) ==> x !in join)
    ensures TermsOf(Step(s, op), JoinedMore(join, fees, op), x)
  {
    if FillOf(op) != [] {
      SightKeepsTerms(s, join, FillOf(op)[0], Charged(FillOf(op)[0], fees), x);
    } else if FeeOf(op) != [] {
      ReportKeepsTerms(s, join, FeeOf(op)[0].0, FeeOf(op)[0].1, x);
    }
  }

  lemma {:induction false} RunKeepsTerms(ops: seq<Op>, x: string)
    requires SightedOnce(Fills(ops), x)
    ensures TermsOf(Run(ops), Join(Fills(ops), Fees(ops)), x)
  {
    if ops != [] {
      var front, op := ops[..|ops| - 1], ops[|ops| - 1];
      OnceInPrefix(Fills(front), FillOf(op), Fees(front), x);
      RunKeepsTerms(front, x);
      JoinOneMore(ops);
      StepKeepsTerms(Run(front), Join(Fills(front), Fees(front)), Fees(front), op, x);
    }
  }

  /** In a run of any length, evictions included, the records handed out for an id
      sighted once differ in nothing but the fee. */
  lemma RecordsDifferOnlyInFee(ops: seq<Op>, i: nat, j: nat)
    requires i < |Run(ops).delivered| && j < |Run(ops).delivered|
    requires Run(ops).delivered[i].execId == Run(ops).delivered[j].execId
    requires SightedOnce(Fills(ops), Run(ops).delivered[i].execId)
    ensures Run(ops).delivered[i].terms == Run(ops).delivered[j].terms
  {
    RunKeepsTerms(ops, Run(ops).delivered[i].execId);
    var d := Run(ops).delivered;
    assert d[i] in d && d[j] in d;
  }

  // ---- The adapter's dictionaries, updated in place ----

  class FillJoin {
    var records: Table<Fill>
    var pending: Table<Fee>
    var delivered: seq<Fill>

    ghost function Model(): State
      reads this
    {
      State(records, pending, delivered)
    }

    constructor ()
      ensures Model() == EMPTY
    {
      records, pending, delivered := Table([], map[]), Table([], map[]), [];
    }

    method RememberFill(f: Fill)
      requires Shaped(records)
      modifies this`records
      ensures records == Put(old(records), f.execId, f)
    {
      records := PutAndTrim(records, f.execId, f);
    }

    method JoinPendingFee(f: Fill) returns (joined: Fill)
      modifies this`pending
      ensures joined == JoinPending(old(Model()), f) && pending == Pop(old(pending), f.execId)
    {
      joined := if f.execId in pending.rows then f.(fee := Some(pending.rows[f.execId])) else f;
      pending := Pop(pending, f.execId);
    }

    method OnExecDetails(e: Execution)
      requires Shaped(records)
      modifies this
      ensures Model() == Step(old(Model()), Sighted(e))
    {
      var f := Translate(e);
      if f.None? { return; }
      var joined := JoinPendingFee(f.value);
      RememberFill(joined);
      delivered := delivered + [joined];
    }

    method OnCommissionReport(execId: string, amount: int, currency: string)
      requires Shaped(records) && Shaped(pending)
      modifies this
      ensures Model() == Step(old(Model()), Reported(execId, amount, currency))
    {
      if execId == "" { return; }
      var parsed := ParseCommission(amount, currency);
      if execId !in records.rows {
        if parsed.Some? { pending := PutAndTrim(pending, execId, parsed.value); }
        return;
      }
      if parsed.None? || records.rows[execId].fee == parsed { return; }
      var updated := records.rows[execId].(fee := parsed);
      records := Put(records, execId, updated);
      delivered := delivered + [updated];
    }
  }

  lemma TrimStep<V>(rows: map<string, V>, order: seq<string>)
    requires Distinct(order) && |order| > FILL_JOIN_CAP
    ensures Restrict(rows, order) - {order[0]} == Restrict(rows, order[1..])
    ensures Newest(order[1..], FILL_JOIN_CAP) == Newest(order, FILL_JOIN_CAP)
    ensures Distinct(order[1..])
  {
    assert forall k :: k in order[1..] <==> k in order && k != order[0];
  }

  /** Assigns the key, then pops the oldest keys while the dictionary is over its cap. */
  method PutAndTrim<V>(t: Table<V>, k: string, v: V) returns (r: Table<V>)
    requires Shaped(t)
    ensures r == Put(t, k, v)
  {
    var order, rows := if k in t.rows then t.order else t.order + [k], t.rows[k := v];
    ghost var all, full := order, rows;
    assert Restrict(full, all) == full;
    while |order| > FILL_JOIN_CAP
      invariant Distinct(order) && rows == Restrict(full, order)
      invariant Newest(order, FILL_JOIN_CAP) == Newest(all, FILL_JOIN_CAP)
    {
      TrimStep(full, order);
      order, rows := order[1..], rows - {order[0]};
    }
    r := Table(order, rows);
  }
}
