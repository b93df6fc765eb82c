/** Hyperliquid fill publication: a bounded seen-window shared by two push
    channels, a REST snapshot and a parking area for fills that arrive before
    the acknowledgement that attributes them. */
module HyperliquidFills {
  import opened Common
  import opened RecencyQueue

  const WS_SEEN_FILL_IDS: nat := 10000
  const PENDING_FILL_CAP: nat := 1000

  /** The platform fill id, written `hash:tid` on the wire. */
  datatype FillId = FillId(hash: string, tid: string)

  datatype FillReason = TakeProfit | StopLoss

  datatype Terms = Terms(quantity: int, price: int, time: int)

  /** A wire entry; an empty string stands for an absent field, and `terms` is
      `None` when a required number is missing or the coin cannot be mapped. */
  datatype Entry = Entry(hash: string, tid: string, coin: string, oid: string, terms: Option<Terms>)

  datatype Attribution = Attribution(clientOrderId: string, reason: Option<FillReason>)

  datatype FillRecord = FillRecord(
    clientOrderId: string, fillId: FillId, coin: string, terms: Terms, reason: Option<FillReason>)

  /** The dedupe key, absent when the entry has no id. */
  function FillKey(e: Entry): Option<FillId> {
    if e.hash == "" || e.tid == "" then None else Some(FillId(e.hash, e.tid))
  }

  /** Translation raises (`None`) on a missing id, coin or number. */
  function Translate(e: Entry, a: Attribution): Option<FillRecord> {
    if e.coin == "" || FillKey(e).None? || e.terms.None? then None
    else Some(FillRecord(a.clientOrderId, FillKey(e).value, e.coin, e.terms.value, a.reason))
  }

  predicate Translatable(e: Entry) {
    e.hash != "" && e.tid != "" && e.coin != "" && e.terms.Some?
  }

  // ---- State ----

  /** An id entering the seen-window, with the record published alongside it. */
  datatype Mark = Mark(key: FillId, record: Option<FillRecord>)

  datatype Parked = Parked(key: FillId, entry: Entry)

  /** `history` is every id that ever entered the window; `holds` has one
      occurrence per running deadline task. */
  datatype Pipeline = Pipeline(
    seen: seq<FillId>, parked: seq<Parked>, holds: multiset<FillId>,
    owners: map<string, Attribution>, history: seq<Mark>)

  const EMPTY := Pipeline([], [], multiset{}, map[], [])

  function Keys(history: seq<Mark>): (r: seq<FillId>)
    ensures |r| == |history|
    ensures forall i :: 0 <= i < |r| ==> r[i] == history[i].key
  {
    seq(|history|, i requires 0 <= i < |history| => history[i].key)
  }

  /** What reached the event bus, oldest first. */
  function Publications(history: seq<Mark>): seq<FillRecord> {
    if history == [] then []
    else
      var last := history[|history| - 1];
      var front := Publications(history[..|history| - 1]);
      if last.record.Some? then front + [last.record.value] else front
  }

  predicate IsParked(parked: seq<Parked>, key: FillId) {
    exists i :: 0 <= i < |parked| && parked[i].key == key
  }

  function EntryOf(parked: seq<Parked>, key: FillId): (e: Entry)
    requires IsParked(parked, key)
    ensures Parked(key, e) in parked
  {
    if parked[0].key == key then parked[0].entry else EntryOf(parked[1..], key)
  }

  function Unpark(parked: seq<Parked>, key: FillId): (r: seq<Parked>)
    ensures forall q :: q in r <==> q in parked && q.key != key
    ensures |r| <= |parked|
    ensures IsParked(parked, key) ==> |r| < |parked|
  {
    if parked == [] then []
    else if parked[0].key == key then Unpark(parked[1..], key)
    else [parked[0]] + Unpark(parked[1..], key)
  }

  function ParkedKeys(parked: seq<Parked>): (r: seq<FillId>)
    ensures |r| == |parked|
    ensures forall i :: 0 <= i < |r| ==> r[i] == parked[i].key
  {
    seq(|parked|, i requires 0 <= i < |parked| => parked[i].key)
  }

  /** The best attribution known now: the order index, else the raw order id. */
  function Attribute(p: Pipeline, e: Entry): Attribution {
    if e.oid in p.owners then p.owners[e.oid]
    else Attribution(if e.oid != "" then e.oid else e.hash, None)
  }

  // ---- Steps ----

  function Enter(p: Pipeline, m: Mark): Pipeline {
    p.(seen := Touch(p.seen, m.key, WS_SEEN_FILL_IDS), history := p.history + [m])
  }

  function FlushParked(p: Pipeline, key: FillId): Pipeline {
    var q := p.(parked := Unpark(p.parked, key));
    if !IsParked(p.parked, key) || key in p.seen then q
    else
      var e := EntryOf(p.parked, key);
      var record := Translate(e, Attribute(p, e));
      if record.None? then q else Enter(q, Mark(key, record))
  }

  /** What parking leaves in the waiting area before the new fill joins it. */
  function Trimmed(p: Pipeline): Pipeline {
    if |p.parked| >= PENDING_FILL_CAP then FlushParked(p, p.parked[0].key) else p
  }

  function Park(p: Pipeline, key: FillId, e: Entry): Pipeline {
    var q := Trimmed(p);
    q.(parked := q.parked + [Parked(key, e)], holds := q.holds + multiset{key})
  }

  function Deliver(p: Pipeline, e: Entry): Pipeline {
    var key := FillKey(e);
    if key.Some? && (key.value in p.seen || IsParked(p.parked, key.value)) then p
    else
      var record := Translate(e, Attribute(p, e));
      if record.None? then p
      else if e.oid in p.owners || key.None? then Enter(p, Mark(record.value.fillId, record))
      else Park(p, key.value, e)
  }

  function Seed(p: Pipeline, e: Entry): Pipeline {
    var key := FillKey(e);
    if key.None? || key.value in p.seen then p else Enter(p, Mark(key.value, None))
  }

  /** One record of a page: marked when unseen, and published if that is asked for. */
  function AbsorbOne(p: Pipeline, r: FillRecord, publishUnseen: bool): Pipeline {
    if r.fillId in p.seen then p else Enter(p, Mark(r.fillId, if publishUnseen then Some(r) else None))
  }

  function Absorb(p: Pipeline, records: seq<FillRecord>, publishUnseen: bool): Pipeline
    decreases |records|
  {
    if records == [] then p else Absorb(AbsorbOne(p, records[0], publishUnseen), records[1..], publishUnseen)
  }

  function FlushKeys(p: Pipeline, keys: seq<FillId>): Pipeline
    decreases |keys|
  {
    if keys == [] then p else FlushKeys(FlushParked(p, keys[0]), keys[1..])
  }

  function Expire(p: Pipeline, key: FillId): Pipeline {
    if key in p.holds then FlushParked(p.(holds := p.holds - multiset{key}), key) else p
  }

  function FlushAll(p: Pipeline): Pipeline {
    FlushKeys(p, ParkedKeys(p.parked)).(holds := multiset{})
  }

  /** Inputs: a live push, a snapshot entry, a deadline, a REST page, an index
      write, the shutdown flush, and the clearing that `disconnect` ends with. */
  datatype Op =
    | Push(entry: Entry)
    | Snapshot(entry: Entry)
    | HoldExpired(key: FillId)
    | Rest(records: seq<FillRecord>, publishUnseen: bool)
    | Learn(oid: string, owner: Attribution)
    | Shutdown
    | Clear

  function Step(p: Pipeline, op: Op): Pipeline {
    match op
    case Push(e) => Deliver(p, e)
    case Snapshot(e) => Seed(p, e)
    case HoldExpired(key) => Expire(p, key)
    case Rest(records, publishUnseen) => Absorb(p, records, publishUnseen)
    case Learn(oid, owner) => p.(owners := p.owners[oid := owner])
    case Shutdown => FlushAll(p)
    case Clear => p.(parked := [], owners := map[])
  }

  function Run(p: Pipeline, ops: seq<Op>): Pipeline
    decreases |ops|
  {
    if ops == [] then p else Run(Step(p, ops[0]), ops[1..])
  }

  // ---- Invariant ----

  ghost predicate ParkedWell(parked: seq<Parked>) {
    && |parked| <= PENDING_FILL_CAP
    && (forall i, j :: 0 <= i < j < |parked| ==> parked[i].key != parked[j].key)
    && (forall q :: q in parked ==> Translatable(q.entry) && FillKey(q.entry) == Some(q.key))
  }

  ghost predicate WindowWell(seen: seq<FillId>, history: seq<Mark>) {
    && seen == Window(Keys(history), WS_SEEN_FILL_IDS)
    && Guarded(Keys(history), WS_SEEN_FILL_IDS)
    && (forall m :: m in history && m.record.Some? ==> m.record.value.fillId == m.key)
  }

  ghost predicate HoldsWell(parked: seq<Parked>, holds: multiset<FillId>) {
    forall q :: q in parked ==> q.key in holds
  }

  ghost predicate Valid(p: Pipeline) {
    WindowWell(p.seen, p.history) && ParkedWell(p.parked) && HoldsWell(p.parked, p.holds)
  }

  lemma KeysSnoc(history: seq<Mark>, m: Mark)
    ensures Keys(history + [m]) == Keys(history) + [m.key]
  {
  }

  lemma SeenIsHistory(p: Pipeline, key: FillId)
    requires Valid(p) && key in p.seen
    ensures key in Keys(p.history)
  {
    WindowShape(Keys(p.history), WS_SEEN_FILL_IDS);
  }

  lemma EnterValid(p: Pipeline, m: Mark)
    requires Valid(p) && m.key !in p.seen
    requires m.record.Some? ==> m.record.value.fillId == m.key
    ensures Valid(Enter(p, m))
  {
    KeysSnoc(p.history, m);
    WindowSnoc(Keys(p.history), m.key, WS_SEEN_FILL_IDS);
    GuardedSnoc(Keys(p.history), m.key, WS_SEEN_FILL_IDS);
  }

  lemma {:induction false} UnparkWell(parked: seq<Parked>, key: FillId)
    requires ParkedWell(parked)
    ensures ParkedWell(Unpark(parked, key))
  {
    if parked != [] {
      UnparkWell(parked[1..], key);
      var rest := Unpark(parked[1..], key);
      assert forall q :: q in rest ==> q in parked[1..];
      assert forall q :: q in parked[1..] ==> q.key != parked[0].key;
    }
  }

  lemma {:induction false} UnparkAbsent(parked: seq<Parked>, key: FillId)
    requires !IsParked(parked, key)
    ensures Unpark(parked, key) == parked
  {
    if parked != [] {
      assert parked[0].key != key;
      assert !IsParked(parked[1..], key) by {
        forall i | 0 <= i < |parked[1..]| ensures parked[1..][i].key != key {
          assert parked[i + 1].key != key;
        }
      }
      UnparkAbsent(parked[1..], key);
    }
  }

  lemma UnparkedValid(p: Pipeline, key: FillId)
    requires Valid(p)
    ensures Valid(p.(parked := Unpark(p.parked, key)))
  {
    UnparkWell(p.parked, key);
  }

  lemma FlushValid(p: Pipeline, key: FillId)
    requires Valid(p)
    ensures Valid(FlushParked(p, key))
  {
    UnparkedValid(p, key);
    var q := p.(parked := Unpark(p.parked, key));
    if IsParked(p.parked, key) && key !in p.seen {
      var e := EntryOf(p.parked, key);
      EnterValid(q, Mark(key, Translate(e, Attribute(p, e))));
    }
  }

  lemma ParkedSnocWell(parked: seq<Parked>, key: FillId, e: Entry)
    requires ParkedWell(parked) && |parked| < PENDING_FILL_CAP && !IsParked(parked, key)
    requires Translatable(e) && FillKey(e) == Some(key)
    ensures ParkedWell(parked + [Parked(key, e)])
  {
    var all := parked + [Parked(key, e)];
    forall i, j | 0 <= i < j < |all| ensures all[i].key != all[j].key {
      assert parked[i].key != key;
    }
  }

  lemma UnparkKeepsAbsent(parked: seq<Parked>, at: FillId, key: FillId)
    requires !IsParked(parked, key)
    ensures !IsParked(Unpark(parked, at), key)
  {
    var r := Unpark(parked, at);
    forall i | 0 <= i < |r| ensures r[i].key != key {
      assert r[i] in r && r[i] in parked;
    }
  }

  lemma TrimmedValid(p: Pipeline, key: FillId)
    requires Valid(p) && !IsParked(p.parked, key)
    ensures Valid(Trimmed(p)) && |Trimmed(p).parked| < PENDING_FILL_CAP && !IsParked(Trimmed(p).parked, key)
  {
    if |p.parked| >= PENDING_FILL_CAP {
      var oldest := p.parked[0].key;
      FlushValid(p, oldest);
      UnparkKeepsAbsent(p.parked, oldest, key);
      assert IsParked(p.parked, oldest);
      assert Trimmed(p).parked == Unpark(p.parked, oldest);
    }
  }

  lemma ParkValid(p: Pipeline, key: FillId, e: Entry)
    requires Valid(p) && !IsParked(p.parked, key)
    requires Translatable(e) && FillKey(e) == Some(key)
    ensures Valid(Park(p, key, e))
  {
    var q := Trimmed(p);
    TrimmedValid(p, key);
    ParkedSnocWell(q.parked, key, e);
    var r := Park(p, key, e);
    assert HoldsWell(r.parked, r.holds);
  }

  lemma {:induction false} AbsorbValid(p: Pipeline, records: seq<FillRecord>, publishUnseen: bool)
    requires Valid(p)
    ensures Valid(Absorb(p, records, publishUnseen))
    decreases |records|
  {
    if records != [] {
      if records[0].fillId !in p.seen {
        EnterValid(p, Mark(records[0].fillId, if publishUnseen then Some(records[0]) else None));
      }
      AbsorbValid(AbsorbOne(p, records[0], publishUnseen), records[1..], publishUnseen);
    }
  }

  lemma {:induction false} FlushKeysValid(p: Pipeline, keys: seq<FillId>)
    requires Valid(p)
    ensures Valid(FlushKeys(p, keys))
    ensures forall q :: q in FlushKeys(p, keys).parked <==> q in p.parked && q.key !in keys
    decreases |keys|
  {
    if keys != [] {
      FlushValid(p, keys[0]);
      FlushKeysValid(FlushParked(p, keys[0]), keys[1..]);
    }
  }

  lemma ParkedKeysMember(parked: seq<Parked>, q: Parked)
    requires q in parked
    ensures q.key in ParkedKeys(parked)
  {
    var i :| 0 <= i < |parked| && parked[i] == q;
    assert ParkedKeys(parked)[i] == q.key;
  }

  lemma EmptyWithoutMembers(parked: seq<Parked>)
    ensures parked == [] <==> forall q :: q !in parked
  {
    assert |parked| > 0 ==> parked[0] in parked;
  }

  lemma ShutdownEmpties(p: Pipeline)
    requires Valid(p)
    ensures FlushKeys(p, ParkedKeys(p.parked)).parked == []
  {
    var r := FlushKeys(p, ParkedKeys(p.parked));
    FlushKeysValid(p, ParkedKeys(p.parked));
    forall q ensures q !in r.parked {
      if q in p.parked { ParkedKeysMember(p.parked, q); }
    }
    EmptyWithoutMembers(r.parked);
  }

  lemma FlushIgnoresHolds(p: Pipeline, holds: multiset<FillId>, key: FillId)
    ensures FlushParked(p.(holds := holds), key) == FlushParked(p, key).(holds := holds)
  {
    if IsParked(p.parked, key) {
      var e := EntryOf(p.parked, key);
      assert Attribute(p.(holds := holds), e) == Attribute(p, e);
    }
  }

  lemma UnparkHolds(parked: seq<Parked>, holds: multiset<FillId>, key: FillId)
    requires HoldsWell(parked, holds)
    ensures HoldsWell(Unpark(parked, key), holds - multiset{key})
  {
  }

  lemma HoldExpiredValid(p: Pipeline, key: FillId)
    requires Valid(p) && key in p.holds
    ensures Valid(Expire(p, key))
  {
    FlushValid(p, key);
    FlushIgnoresHolds(p, p.holds - multiset{key}, key);
    UnparkHolds(p.parked, p.holds, key);
  }

  lemma DeliverValid(p: Pipeline, e: Entry)
    requires Valid(p)
    ensures Valid(Deliver(p, e))
  {
    var key := FillKey(e);
    if key.Some? && key.value !in p.seen && !IsParked(p.parked, key.value) && Translatable(e) {
      if e.oid in p.owners {
        EnterValid(p, Mark(key.value, Translate(e, Attribute(p, e))));
      } else {
        ParkValid(p, key.value, e);
      }
    }
  }

  /** The shutdown flush empties the waiting area and ends every deadline. */
  lemma FlushAllValid(p: Pipeline)
    requires Valid(p)
    ensures Valid(FlushAll(p)) && FlushAll(p).parked == [] && FlushAll(p).holds == multiset{}
  {
    FlushKeysValid(p, ParkedKeys(p.parked));
    ShutdownEmpties(p);
  }

  lemma StepValid(p: Pipeline, op: Op)
    requires Valid(p)
    ensures Valid(Step(p, op))
  {
    if op.Push? {
      DeliverValid(p, op.entry);
    } else if op.Snapshot? {
      var key := FillKey(op.entry);
      if key.Some? && key.value !in p.seen { EnterValid(p, Mark(key.value, None)); }
    } else if op.HoldExpired? {
      if op.key in p.holds { HoldExpiredValid(p, op.key); }
    } else if op.Rest? {
      AbsorbValid(p, op.records, op.publishUnseen);
    } else if op.Shutdown? {
      FlushAllValid(p);
    }
  }

  lemma {:induction false} RunValid(p: Pipeline, ops: seq<Op>)
    requires Valid(p)
    ensures Valid(Run(p, ops))
    decreases |ops|
  {
    if ops != [] {
      StepValid(p, ops[0]);
      RunValid(Step(p, ops[0]), ops[1..]);
    }
  }

  lemma EmptyValid()
    ensures Valid(EMPTY)
  {
  }

  // ---- Published at most once ----

  /** Over any run, two publications of one fill are separated by at least
      10000 pairwise distinct other ids entering the seen-window. */
  lemma PublishedAtMostOnce(ops: seq<Op>, i: nat, j: nat)
    requires i < j < |Run(EMPTY, ops).history|
    requires Run(EMPTY, ops).history[i].record.Some? && Run(EMPTY, ops).history[j].record.Some?
    requires Run(EMPTY, ops).history[i].record.value.fillId == Run(EMPTY, ops).history[j].record.value.fillId
    ensures var keys := Keys(Run(EMPTY, ops).history);
            |Elems(keys[i + 1..j]) - {keys[i]}| >= WS_SEEN_FILL_IDS
  {
    EmptyValid();
    RunValid(EMPTY, ops);
    var h := Run(EMPTY, ops).history;
    assert h[i] in h && h[j] in h;
    ReentryNeedsCap(Keys(h), i, j, WS_SEEN_FILL_IDS);
  }

  /** Over any run, the window is duplicate-free and both areas stay bounded;
      every parked fill still has a deadline task running. */
  lemma AreasStayBounded(ops: seq<Op>)
    ensures var p := Run(EMPTY, ops);
            && Distinct(p.seen) && |p.seen| <= WS_SEEN_FILL_IDS
            && |p.parked| <= PENDING_FILL_CAP && Distinct(ParkedKeys(p.parked))
            && forall q :: q in p.parked ==> q.key in p.holds
  {
    EmptyValid();
    RunValid(EMPTY, ops);
    WindowShape(Keys(Run(EMPTY, ops).history), WS_SEEN_FILL_IDS);
  }

  /** A fill subscribed twice is published at most once: a repeated push of the
      same entry changes nothing. */
  lemma DuplicatePushIsSilent(p: Pipeline, e: Entry)
    requires Valid(p)
    ensures Deliver(Deliver(p, e), e) == Deliver(p, e)
  {
    if FillKey(e).Some? && Translatable(e) && Deliver(p, e) != p {
      var key := FillKey(e).value;
      var q := Deliver(p, e);
      if e.oid in p.owners {
        WindowShape(Keys(p.history), WS_SEEN_FILL_IDS);
        TouchKeepsShape(p.seen, key, WS_SEEN_FILL_IDS);
      } else {
        assert q.parked[|q.parked| - 1].key == key;
      }
    }
  }

  /** An entry without an id is never published: translation needs the very
      fields the dedupe key needs, so the fallback that would publish it raw
      cannot be reached. */
  lemma IdlessFillsNeverPublish(p: Pipeline, e: Entry)
    requires FillKey(e).None?
    ensures Deliver(p, e) == p && Seed(p, e) == p
  {
  }

  // ---- No parked fill is dropped ----

  /** Published, seeded, absorbed or still parked. */
  ghost predicate Accounted(p: Pipeline, key: FillId) {
    IsParked(p.parked, key) || key in Keys(p.history)
  }

  lemma ParkedMember(parked: seq<Parked>, q: Parked)
    requires q in parked
    ensures IsParked(parked, q.key)
  {
  }

  lemma UnparkOthers(parked: seq<Parked>, key: FillId, other: FillId)
    ensures IsParked(Unpark(parked, key), other) <==> IsParked(parked, other) && other != key
  {
    var rest := Unpark(parked, key);
    if IsParked(parked, other) && other != key {
      var i :| 0 <= i < |parked| && parked[i].key == other;
      ParkedMember(rest, parked[i]);
    }
    if IsParked(rest, other) {
      var i :| 0 <= i < |rest| && rest[i].key == other;
      assert rest[i] in parked;
      ParkedMember(parked, rest[i]);
    }
  }

  /** Flushing a key publishes it with the attribution known at that moment,
      unless the window already holds it; no other parked fill is touched. */
  lemma FlushPublishes(p: Pipeline, key: FillId)
    requires Valid(p)
    ensures var q := FlushParked(p, key);
            && (forall other :: IsParked(q.parked, other) <==> IsParked(p.parked, other) && other != key)
            && (!IsParked(p.parked, key) ==> q == p)
            && (IsParked(p.parked, key) && key in p.seen ==> q.history == p.history)
            && (IsParked(p.parked, key) && key !in p.seen ==>
                  var e := EntryOf(p.parked, key);
                  q.history == p.history + [Mark(key, Translate(e, Attribute(p, e)))] && Translatable(e))
  {
    forall other ensures IsParked(FlushParked(p, key).parked, other) <==> IsParked(p.parked, other) && other != key {
      UnparkOthers(p.parked, key, other);
    }
    if !IsParked(p.parked, key) {
      UnparkAbsent(p.parked, key);
    } else {
      assert Parked(key, EntryOf(p.parked, key)) in p.parked;
    }
  }

  lemma FlushKeepsAccounts(p: Pipeline, at: FillId, key: FillId)
    requires Valid(p) && Accounted(p, key)
    ensures Accounted(FlushParked(p, at), key)
  {
    FlushPublishes(p, at);
    if at == key && IsParked(p.parked, key) {
      if key in p.seen {
        SeenIsHistory(p, key);
      } else {
        KeysSnoc(p.history, Mark(key, Translate(EntryOf(p.parked, key), Attribute(p, EntryOf(p.parked, key)))));
      }
    } else if IsParked(p.parked, at) && at !in p.seen {
      var e := EntryOf(p.parked, at);
      KeysSnoc(p.history, Mark(at, Translate(e, Attribute(p, e))));
    }
  }

  lemma {:induction false} FlushKeysKeepsAccounts(p: Pipeline, keys: seq<FillId>, key: FillId)
    requires Valid(p) && Accounted(p, key)
    ensures Accounted(FlushKeys(p, keys), key)
    decreases |keys|
  {
    if keys != [] {
      FlushValid(p, keys[0]);
      FlushKeepsAccounts(p, keys[0], key);
      FlushKeysKeepsAccounts(FlushParked(p, keys[0]), keys[1..], key);
    }
  }

  lemma {:induction false} AbsorbKeepsAccounts(p: Pipeline, records: seq<FillRecord>, publishUnseen: bool, key: FillId)
    requires Accounted(p, key)
    ensures Accounted(Absorb(p, records, publishUnseen), key)
    decreases |records|
  {
    if records != [] {
      KeysSnoc(p.history, Mark(records[0].fillId, if publishUnseen then Some(records[0]) else None));
      AbsorbKeepsAccounts(AbsorbOne(p, records[0], publishUnseen), records[1..], publishUnseen, key);
    }
  }

  /** Every keyed, translatable live fill is accounted for as soon as it is pushed. */
  lemma PushIsAccounted(p: Pipeline, e: Entry)
    requires Valid(p) && Translatable(e)
    ensures Accounted(Deliver(p, e), FillKey(e).value)
  {
    var key := FillKey(e).value;
    var q := Deliver(p, e);
    if key in p.seen {
      SeenIsHistory(p, key);
    } else if !IsParked(p.parked, key) {
      if e.oid in p.owners {
        KeysSnoc(p.history, Mark(key, Translate(e, Attribute(p, e))));
      } else {
        assert q.parked[|q.parked| - 1].key == key;
      }
    }
  }

  lemma ParkKeepsAccounts(p: Pipeline, at: FillId, e: Entry, key: FillId)
    requires Valid(p) && Accounted(p, key)
    ensures Accounted(Park(p, at, e), key)
  {
    var q := Trimmed(p);
    if |p.parked| >= PENDING_FILL_CAP { FlushKeepsAccounts(p, p.parked[0].key, key); }
    SnocKeepsParked(q.parked, Parked(at, e), key);
  }

  lemma SnocKeepsParked(parked: seq<Parked>, q: Parked, key: FillId)
    ensures IsParked(parked + [q], key) <==> IsParked(parked, key) || q.key == key
  {
    var all := parked + [q];
    if IsParked(parked, key) {
      var i :| 0 <= i < |parked| && parked[i].key == key;
      assert all[i].key == key;
    }
    if q.key == key { assert all[|parked|].key == key; }
  }

  lemma PushKeepsAccounts(p: Pipeline, e: Entry, key: FillId)
    requires Valid(p) && Accounted(p, key)
    ensures Accounted(Deliver(p, e), key)
  {
    var record := Translate(e, Attribute(p, e));
    if Deliver(p, e) != p {
      if e.oid in p.owners {
        KeysSnoc(p.history, Mark(record.value.fillId, record));
      } else {
        ParkKeepsAccounts(p, FillKey(e).value, e, key);
      }
    }
  }

  lemma ExpireKeepsAccounts(p: Pipeline, k: FillId, key: FillId)
    requires Valid(p) && Accounted(p, key)
    ensures Accounted(Expire(p, k), key)
  {
    FlushKeepsAccounts(p, k, key);
    FlushIgnoresHolds(p, p.holds - multiset{k}, k);
  }

  /** Only the clearing at the end of `disconnect` can lose a fill, and it loses
      exactly those still parked that never entered the history. */
  lemma StepKeepsAccounts(p: Pipeline, op: Op, key: FillId)
    requires Valid(p) && Accounted(p, key)
    ensures op != Clear ==> Accounted(Step(p, op), key)
    ensures op == Clear ==> (Accounted(Step(p, op), key) <==> key in Keys(p.history))
  {
    if op.Push? {
      PushKeepsAccounts(p, op.entry, key);
    } else if op.Snapshot? {
      if FillKey(op.entry).Some? { KeysSnoc(p.history, Mark(FillKey(op.entry).value, None)); }
    } else if op.HoldExpired? {
      ExpireKeepsAccounts(p, op.key, key);
    } else if op.Rest? {
      AbsorbKeepsAccounts(p, op.records, op.publishUnseen, key);
    } else if op.Shutdown? {
      FlushKeysKeepsAccounts(p, ParkedKeys(p.parked), key);
    }
  }

  /** No clearing in the run meets this fill parked before it entered the history. */
  ghost predicate ClearingSpares(p: Pipeline, ops: seq<Op>, key: FillId)
    decreases |ops|
  {
    ops != [] ==>
      && (ops[0] == Clear && IsParked(p.parked, key) ==> key in Keys(p.history))
      && ClearingSpares(Step(p, ops[0]), ops[1..], key)
  }

  lemma {:induction false} AccountsSurvive(p: Pipeline, ops: seq<Op>, key: FillId)
    requires Valid(p) && Accounted(p, key) && ClearingSpares(p, ops, key)
    ensures Accounted(Run(p, ops), key)
    decreases |ops|
  {
    if ops != [] {
      StepKeepsAccounts(p, ops[0], key);
      StepValid(p, ops[0]);
      AccountsSurvive(Step(p, ops[0]), ops[1..], key);
    }
  }

  lemma {:induction false} RunSplit(p: Pipeline, a: seq<Op>, b: seq<Op>)
    ensures Run(p, a + b) == Run(Run(p, a), b)
    decreases |a|
  {
    if a == [] {
      assert a + b == b;
    } else {
      assert (a + b)[1..] == a[1..] + b;
      RunSplit(Step(p, a[0]), a[1..], b);
    }
  }

  /** No keyed, translatable live fill is dropped unless a clearing meets that very
      fill parked and unseen: at the end of any run it is parked or in the history,
      where it was published, seeded or absorbed, whatever becomes of other fills. */
  lemma NoLiveFillIsDropped(before: seq<Op>, e: Entry, after: seq<Op>)
    requires Translatable(e)
    requires ClearingSpares(Deliver(Run(EMPTY, before), e), after, FillKey(e).value)
    ensures Accounted(Run(EMPTY, before + [Push(e)] + after), FillKey(e).value)
  {
    EmptyValid();
    RunValid(EMPTY, before);
    var p := Run(EMPTY, before);
    PushIsAccounted(p, e);
    StepValid(p, Push(e));
    AccountsSurvive(Deliver(p, e), after, FillKey(e).value);
    assert Run(p, [Push(e)]) == Deliver(p, e) by { assert [Push(e)][1..] == []; }
    RunSplit(EMPTY, before, [Push(e)]);
    RunSplit(EMPTY, before + [Push(e)], after);
  }

  /** A fill pushed between the shutdown flush and the clearing is parked and
      then forgotten: neither published nor in the history. */
  lemma TeardownWindowLosesAFill(e: Entry)
    requires Translatable(e)
    ensures !Accounted(Run(EMPTY, [Shutdown, Push(e), Clear]), FillKey(e).value)
  {
    var key := FillKey(e).value;
    assert Step(EMPTY, Shutdown) == EMPTY by { assert ParkedKeys([]) == []; }
    var q := Step(EMPTY, Push(e));
    assert q == Park(EMPTY, key, e) && q.history == [];
    var ops := [Shutdown, Push(e), Clear];
    assert ops[1..] == [Push(e), Clear] && ops[1..][1..] == [Clear] && ops[1..][1..][1..] == [];
    assert Run(EMPTY, ops) == Run(EMPTY, ops[1..]) == Run(q, ops[1..][1..]) == Run(Step(q, Clear), []);
  }

  /** The step published this fill. */
  ghost predicate PublishedBetween(before: seq<Mark>, after: seq<Mark>, key: FillId) {
    && |before| <= |after| && after[..|before|] == before
    && exists i :: |before| <= i < |after| && after[i].key == key && after[i].record.Some?
  }

  lemma FlushLeavesPublished(p: Pipeline, at: FillId, key: FillId)
    requires Valid(p) && IsParked(p.parked, key) && key !in p.seen
    ensures !IsParked(FlushParked(p, at).parked, key) ==> PublishedBetween(p.history, FlushParked(p, at).history, key)
  {
    FlushPublishes(p, at);
    if at == key { assert FlushParked(p, at).history[|p.history|].key == key; }
  }

  lemma PushLeavesPublished(p: Pipeline, e: Entry, key: FillId)
    requires Valid(p)
    requires IsParked(p.parked, key) && !IsParked(Deliver(p, e).parked, key) && key !in p.seen
    ensures PublishedBetween(p.history, Deliver(p, e).history, key)
  {
    if Deliver(p, e).parked != p.parked {
      DeliverParks(p, e);
      var q := Trimmed(p);
      SnocKeepsParked(q.parked, Parked(FillKey(e).value, e), key);
      FlushLeavesPublished(p, p.parked[0].key, key);
    }
  }

  lemma DeliverParks(p: Pipeline, e: Entry)
    requires Deliver(p, e).parked != p.parked
    ensures FillKey(e).Some? && Deliver(p, e) == Park(p, FillKey(e).value, e)
  {
  }

  lemma HoldLeavesPublished(p: Pipeline, k: FillId, key: FillId)
    requires Valid(p)
    requires IsParked(p.parked, key) && !IsParked(Expire(p, k).parked, key) && key !in p.seen
    ensures PublishedBetween(p.history, Expire(p, k).history, key)
  {
    var f := FlushParked(p, k);
    FlushIgnoresHolds(p, p.holds - multiset{k}, k);
    assert Expire(p, k) == f.(holds := p.holds - multiset{k});
    FlushLeavesPublished(p, k, key);
  }

  lemma ShutdownPublishes(p: Pipeline, key: FillId)
    requires Valid(p) && IsParked(p.parked, key) && key !in p.seen
    ensures PublishedBetween(p.history, FlushAll(p).history, key)
  {
    var i :| 0 <= i < |p.parked| && p.parked[i].key == key;
    ParkedKeysMember(p.parked, p.parked[i]);
    FlushKeysPublishes(p, ParkedKeys(p.parked), key);
  }

  lemma OthersKeepParked(p: Pipeline, op: Op)
    requires op.Snapshot? || op.Rest? || op.Learn?
    ensures Step(p, op).parked == p.parked
  {
    if op.Rest? { AbsorbParks(p, op.records, op.publishUnseen); }
  }

  /** A fill leaves the parking area only by being published in that very step
      or by being in the seen-window already. */
  lemma LeavesOnlyPublished(p: Pipeline, op: Op, key: FillId)
    requires Valid(p) && op != Clear
    requires IsParked(p.parked, key) && !IsParked(Step(p, op).parked, key) && key !in p.seen
    ensures PublishedBetween(p.history, Step(p, op).history, key)
  {
    if op.Push? {
      PushLeavesPublished(p, op.entry, key);
    } else if op.HoldExpired? {
      HoldLeavesPublished(p, op.key, key);
    } else if op.Shutdown? {
      ShutdownPublishes(p, key);
    } else {
      OthersKeepParked(p, op);
    }
  }

  lemma {:induction false} AbsorbParks(p: Pipeline, records: seq<FillRecord>, publishUnseen: bool)
    ensures Absorb(p, records, publishUnseen).parked == p.parked
    decreases |records|
  {
    if records != [] {
      AbsorbParks(AbsorbOne(p, records[0], publishUnseen), records[1..], publishUnseen);
    }
  }

  lemma {:induction false} FlushKeysGrow(p: Pipeline, keys: seq<FillId>)
    ensures |p.history| <= |FlushKeys(p, keys).history|
    ensures FlushKeys(p, keys).history[..|p.history|] == p.history
    decreases |keys|
  {
    if keys != [] {
      var q := FlushParked(p, keys[0]);
      FlushKeysGrow(q, keys[1..]);
      assert q.history[..|p.history|] == p.history;
      assert FlushKeys(p, keys).history[..|p.history|]
          == FlushKeys(p, keys).history[..|q.history|][..|p.history|];
    }
  }

  lemma {:induction false} FlushKeysPublishes(p: Pipeline, keys: seq<FillId>, key: FillId)
    requires Valid(p) && IsParked(p.parked, key) && key !in p.seen && key in keys
    ensures PublishedBetween(p.history, FlushKeys(p, keys).history, key)
    decreases |keys|
  {
    var q, r := FlushParked(p, keys[0]), FlushKeys(p, keys);
    FlushPublishes(p, keys[0]);
    FlushValid(p, keys[0]);
    FlushKeysGrow(q, keys[1..]);
    FlushKeysGrow(p, keys);
    if keys[0] == key {
      assert r.history[|p.history|] == r.history[..|q.history|][|p.history|];
    } else {
      FlushSees(p, keys[0], key);
      FlushKeysPublishes(q, keys[1..], key);
    }
  }

  lemma FlushSees(p: Pipeline, at: FillId, key: FillId)
    requires Valid(p) && at != key && key !in p.seen
    ensures key !in FlushParked(p, at).seen
  {
    WindowShape(Keys(p.history), WS_SEEN_FILL_IDS);
    TouchKeepsShape(p.seen, at, WS_SEEN_FILL_IDS);
  }

  lemma PublicationsSnoc(history: seq<Mark>, m: Mark)
    ensures Publications(history + [m]) ==
            if m.record.Some? then Publications(history) + [m.record.value] else Publications(history)
  {
    assert (history + [m])[..|history|] == history;
  }

  // ---- What is published ----

  lemma OnePublishes(p: Pipeline, r: FillRecord, publishUnseen: bool)
    ensures Publications(AbsorbOne(p, r, publishUnseen).history) ==
            if publishUnseen && r.fillId !in p.seen then Publications(p.history) + [r] else Publications(p.history)
    ensures forall id :: id !in p.seen && id != r.fillId ==> id !in AbsorbOne(p, r, publishUnseen).seen
  {
    PublicationsSnoc(p.history, Mark(r.fillId, if publishUnseen then Some(r) else None));
    forall id | id !in p.seen && id != r.fillId ensures id !in Touch(p.seen, r.fillId, WS_SEEN_FILL_IDS) {
      TouchAddsOne(p.seen, r.fillId, id);
    }
  }

  lemma TouchAddsOne(seen: seq<FillId>, x: FillId, y: FillId)
    requires x != y && y !in seen
    ensures y !in Touch(seen, x, WS_SEEN_FILL_IDS)
  {
    var all := Without(seen, x) + [x];
    assert y !in Without(seen, x);
    assert y !in all;
  }

  lemma {:induction false} AbsorbsSilently(p: Pipeline, records: seq<FillRecord>)
    ensures Publications(Absorb(p, records, false).history) == Publications(p.history)
    decreases |records|
  {
    if records != [] {
      OnePublishes(p, records[0], false);
      AbsorbsSilently(AbsorbOne(p, records[0], false), records[1..]);
    }
  }

  /** A startup page publishes nothing. */
  lemma StartupPageIsSilent(p: Pipeline, records: seq<FillRecord>)
    ensures Publications(Step(p, Rest(records, false)).history) == Publications(p.history)
  {
    AbsorbsSilently(p, records);
  }

  /** What a gap page adds to the bus. */
  function Added(p: Pipeline, records: seq<FillRecord>): seq<FillRecord>
    decreases |records|
  {
    if records == [] then []
    else
      var rest := Added(AbsorbOne(p, records[0], true), records[1..]);
      if records[0].fillId in p.seen then rest else [records[0]] + rest
  }

  lemma Regroup<T>(a: seq<T>, b: seq<T>, c: seq<T>)
    ensures (a + b) + c == a + (b + c)
  {
  }

  lemma {:induction false} GapPageAdds(p: Pipeline, records: seq<FillRecord>)
    ensures Publications(Absorb(p, records, true).history) == Publications(p.history) + Added(p, records)
    decreases |records|
  {
    if records != [] {
      var q := AbsorbOne(p, records[0], true);
      OnePublishes(p, records[0], true);
      GapPageAdds(q, records[1..]);
      Regroup(Publications(p.history), [records[0]], Added(q, records[1..]));
    }
  }

  lemma {:induction false} AddedIsListed(p: Pipeline, records: seq<FillRecord>, r: FillRecord)
    requires r in Added(p, records)
    ensures r in records
    decreases |records|
  {
    if r != records[0] { AddedIsListed(AbsorbOne(p, records[0], true), records[1..], r); }
  }

  /** The page's first record of an id that the window does not hold. */
  ghost predicate Missed(p: Pipeline, records: seq<FillRecord>, i: int) {
    && 0 <= i < |records| && records[i].fillId !in p.seen
    && forall j :: 0 <= j < i ==> records[j].fillId != records[i].fillId
  }

  lemma {:induction false} MissedIsAdded(p: Pipeline, records: seq<FillRecord>, i: nat)
    requires Missed(p, records, i)
    ensures records[i] in Added(p, records)
    decreases |records|
  {
    if i > 0 {
      OnePublishes(p, records[0], true);
      assert records[1..][i - 1] == records[i];
      MissedIsAdded(AbsorbOne(p, records[0], true), records[1..], i - 1);
    }
  }

  /** A page fetched after a gap publishes every fill that was missed, and nothing
      that is not on the page. */
  lemma GapPagePublishes(p: Pipeline, records: seq<FillRecord>) returns (added: seq<FillRecord>)
    ensures Publications(Step(p, Rest(records, true)).history) == Publications(p.history) + added
    ensures forall r :: r in added ==> r in records
    ensures forall i :: Missed(p, records, i) ==> records[i] in added
  {
    added := Added(p, records);
    GapPageAdds(p, records);
    forall r | r in added ensures r in records { AddedIsListed(p, records, r); }
    forall i | Missed(p, records, i) ensures records[i] in added { MissedIsAdded(p, records, i); }
  }

  lemma OneIsRemembered(p: Pipeline, r: FillRecord, publishUnseen: bool)
    requires Valid(p)
    ensures Valid(AbsorbOne(p, r, publishUnseen)) && r.fillId in Keys(AbsorbOne(p, r, publishUnseen).history)
  {
    var m := Mark(r.fillId, if publishUnseen then Some(r) else None);
    if r.fillId in p.seen {
      SeenIsHistory(p, r.fillId);
    } else {
      EnterValid(p, m);
      KeysSnoc(p.history, m);
    }
  }

  lemma {:induction false} AbsorbRemembers(p: Pipeline, records: seq<FillRecord>, publishUnseen: bool, r: FillRecord)
    requires Valid(p) && r in records
    ensures r.fillId in Keys(Absorb(p, records, publishUnseen).history)
    decreases |records|
  {
    OneIsRemembered(p, records[0], publishUnseen);
    if records[0] == r {
      AbsorbKeepsKeys(AbsorbOne(p, r, publishUnseen), records[1..], publishUnseen, r.fillId);
    } else {
      AbsorbRemembers(AbsorbOne(p, records[0], publishUnseen), records[1..], publishUnseen, r);
    }
  }

  /** Either way every id of the page is known afterwards. */
  lemma PageIsRemembered(p: Pipeline, records: seq<FillRecord>, publishUnseen: bool, r: FillRecord)
    requires Valid(p) && r in records
    ensures r.fillId in Keys(Step(p, Rest(records, publishUnseen)).history)
  {
    AbsorbRemembers(p, records, publishUnseen, r);
  }

  lemma {:induction false} AbsorbKeepsKeys(p: Pipeline, records: seq<FillRecord>, publishUnseen: bool, key: FillId)
    requires key in Keys(p.history)
    ensures key in Keys(Absorb(p, records, publishUnseen).history)
    decreases |records|
  {
    if records != [] {
      KeysSnoc(p.history, Mark(records[0].fillId, if publishUnseen then Some(records[0]) else None));
      AbsorbKeepsKeys(AbsorbOne(p, records[0], publishUnseen), records[1..], publishUnseen, key);
    }
  }

  /** A snapshot entry publishes nothing and is known afterwards. */
  lemma SnapshotIsSilent(p: Pipeline, e: Entry)
    ensures Publications(Step(p, Snapshot(e)).history) == Publications(p.history)
  {
    if FillKey(e).Some? { PublicationsSnoc(p.history, Mark(FillKey(e).value, None)); }
  }

  lemma SnapshotIsRemembered(p: Pipeline, e: Entry)
    requires Valid(p) && e.hash != "" && e.tid != ""
    ensures FillId(e.hash, e.tid) in Keys(Step(p, Snapshot(e)).history)
  {
    var key := FillId(e.hash, e.tid);
    if key in p.seen { SeenIsHistory(p, key); } else { KeysSnoc(p.history, Mark(key, None)); }
  }

  /** Shutting down is that flush; the clearing that ends `disconnect` forgets what
      still waits and the order index, and nothing else. */
  lemma TeardownSteps(p: Pipeline)
    ensures Step(p, Shutdown) == FlushAll(p)
    ensures Step(p, Clear) == Pipeline(p.seen, [], p.holds, map[], p.history)
  {
  }

  /** An entry without an id leaves no trace in a snapshot. */
  lemma IdlessSnapshotIsIgnored(p: Pipeline, e: Entry)
    requires e.hash == "" || e.tid == ""
    ensures Step(p, Snapshot(e)) == p
  {
  }

  lemma FlushKeepsHolds(p: Pipeline, key: FillId)
    ensures FlushParked(p, key).holds == p.holds && FlushParked(p, key).owners == p.owners
  {
  }

  /** An elapsed deadline ends one task, whether or not its fill still waits; without
      a running task nothing elapses. */
  lemma DeadlineEndsOneTask(p: Pipeline, key: FillId)
    ensures Step(p, HoldExpired(key)).holds == p.holds - multiset{key}
    ensures key !in p.holds ==> Step(p, HoldExpired(key)) == p
  {
    FlushKeepsHolds(p.(holds := p.holds - multiset{key}), key);
  }

  /** The record carries the fill as it came and this attribution. */
  predicate Tells(r: FillRecord, e: Entry, clientOrderId: string, reason: Option<FillReason>) {
    && r.fillId == FillId(e.hash, e.tid) && r.coin == e.coin && Some(r.terms) == e.terms
    && r.clientOrderId == clientOrderId && r.reason == reason
  }

  /** A live fill of an order the index knows is published at once, under the name
      the index gives it. */
  lemma KnownFillPublishes(p: Pipeline, e: Entry) returns (r: FillRecord)
    requires Translatable(e) && e.oid in p.owners
    requires FillId(e.hash, e.tid) !in p.seen && !IsParked(p.parked, FillId(e.hash, e.tid))
    ensures Publications(Step(p, Push(e)).history) == Publications(p.history) + [r]
    ensures Tells(r, e, p.owners[e.oid].clientOrderId, p.owners[e.oid].reason)
  {
    r := Translate(e, Attribute(p, e)).value;
    PublicationsSnoc(p.history, Mark(r.fillId, Some(r)));
  }

  lemma ParksNew(p: Pipeline, e: Entry)
    requires |p.parked| < PENDING_FILL_CAP && Translatable(e) && e.oid !in p.owners
    requires FillId(e.hash, e.tid) !in p.seen && !IsParked(p.parked, FillId(e.hash, e.tid))
    ensures var key := FillId(e.hash, e.tid);
            Deliver(p, e) == p.(parked := p.parked + [Parked(key, e)], holds := p.holds + multiset{key})
  {
  }

  lemma ExpiryPublishes(p: Pipeline, key: FillId, e: Entry)
    requires ParkedWell(p.parked) && Parked(key, e) in p.parked && key in p.holds && key !in p.seen
    ensures Translatable(e) && FillKey(e) == Some(key)
    ensures Publications(Expire(p, key).history) == Publications(p.history) + [Translate(e, Attribute(p, e)).value]
  {
    OnlyEntry(p.parked, key, e);
    PublicationsSnoc(p.history, Mark(key, Translate(e, Attribute(p, e))));
  }

  /** A live fill of an unknown order, with room to wait. */
  ghost predicate HasToWait(p: Pipeline, e: Entry) {
    && Valid(p) && |p.parked| < PENDING_FILL_CAP && Translatable(e) && e.oid !in p.owners
    && FillId(e.hash, e.tid) !in p.seen && !IsParked(p.parked, FillId(e.hash, e.tid))
  }

  lemma WaitsQuietly(p: Pipeline, e: Entry)
    requires HasToWait(p, e)
    ensures var key, q := FillId(e.hash, e.tid), Deliver(p, e);
            && q.history == p.history && q.seen == p.seen && q.owners == p.owners
            && ParkedWell(q.parked) && Parked(key, e) in q.parked && key in q.holds
  {
    var key := FillId(e.hash, e.tid);
    ParksNew(p, e);
    ParkedSnocWell(p.parked, key, e);
    assert Deliver(p, e).parked[|p.parked|] == Parked(key, e);
  }

  lemma LearnedExpiry(q: Pipeline, e: Entry, owner: Attribution)
    requires ParkedWell(q.parked) && Translatable(e)
    requires var key := FillId(e.hash, e.tid); Parked(key, e) in q.parked && key in q.holds && key !in q.seen
    ensures Publications(Expire(q.(owners := q.owners[e.oid := owner]), FillId(e.hash, e.tid)).history) ==
            Publications(q.history) + [FillRecord(owner.clientOrderId, FillId(e.hash, e.tid), e.coin, e.terms.value, owner.reason)]
  {
    ExpiryPublishes(q.(owners := q.owners[e.oid := owner]), FillId(e.hash, e.tid), e);
  }

  lemma StepsAre(p: Pipeline, e: Entry, owner: Attribution, key: FillId)
    ensures Step(p, Push(e)) == Deliver(p, e) && Step(p, HoldExpired(key)) == Expire(p, key)
    ensures Step(p, Learn(e.oid, owner)) == p.(owners := p.owners[e.oid := owner])
  {
  }

  /** If the index learns the order before the deadline, the waiting fill is
      published under that name, and not before. */
  lemma LateNameReachesTheFill(p: Pipeline, e: Entry, owner: Attribution) returns (r: FillRecord)
    requires HasToWait(p, e)
    ensures var known := Step(Step(p, Push(e)), Learn(e.oid, owner));
            && Publications(known.history) == Publications(p.history)
            && Publications(Step(known, HoldExpired(FillId(e.hash, e.tid))).history) == Publications(p.history) + [r]
    ensures Tells(r, e, owner.clientOrderId, owner.reason)
  {
    var key, waiting := FillId(e.hash, e.tid), Deliver(p, e);
    WaitsQuietly(p, e);
    StepsAre(p, e, owner, key);
    StepsAre(waiting, e, owner, key);
    StepsAre(waiting.(owners := waiting.owners[e.oid := owner]), e, owner, key);
    LearnedExpiry(waiting, e, owner);
    r := FillRecord(owner.clientOrderId, key, e.coin, e.terms.value, owner.reason);
  }

  /** If it never does, the deadline publishes the fill under its raw order id, or
      under its hash when it names no order. */
  lemma NamelessFillPublishes(p: Pipeline, e: Entry) returns (r: FillRecord)
    requires HasToWait(p, e)
    ensures Publications(Step(Step(p, Push(e)), HoldExpired(FillId(e.hash, e.tid))).history) == Publications(p.history) + [r]
    ensures Tells(r, e, if e.oid != "" then e.oid else e.hash, None)
  {
    WaitsQuietly(p, e);
    ExpiryPublishes(Deliver(p, e), FillId(e.hash, e.tid), e);
    r := Translate(e, Attribute(Deliver(p, e), e)).value;
  }

  lemma OnlyEntry(parked: seq<Parked>, key: FillId, e: Entry)
    requires ParkedWell(parked) && Parked(key, e) in parked
    ensures IsParked(parked, key) && EntryOf(parked, key) == e
  {
    var i :| 0 <= i < |parked| && parked[i] == Parked(key, e);
    assert parked[i].key == key;
    var f := EntryOf(parked, key);
    var j :| 0 <= j < |parked| && parked[j] == Parked(key, f);
  }

  // ---- The adapter's own state, updated in place ----

  /** Every handler is one step of the model, so the run lemmas above apply to
      any sequence of handler calls on a new publisher. */
  class FillPublisher {
    var seen: seq<FillId>
    var parked: seq<Parked>
    var holds: multiset<FillId>
    var owners: map<string, Attribution>
    var published: seq<FillRecord>
    ghost var history: seq<Mark>

    ghost function Model(): Pipeline
      reads this
    {
      Pipeline(seen, parked, holds, owners, history)
    }

    /** The bus carries exactly the records of the history, in order. */
    ghost predicate Consistent()
      reads this
    {
      |seen| <= WS_SEEN_FILL_IDS && published == Publications(history)
    }

    constructor ()
      ensures Consistent() && Model() == EMPTY
    {
      seen, parked, holds, owners, published, history := [], [], multiset{}, map[], [], [];
    }

    /** `deque(maxlen)` append, recording whether the id was published with it. */
    method Remember(key: FillId, record: Option<FillRecord>)
      requires Consistent() && key !in seen
      modifies this`seen, this`published, this`history
      ensures Consistent() && Model() == Enter(old(Model()), Mark(key, record))
    {
      AppendIsTouch(seen, key, WS_SEEN_FILL_IDS);
      PublicationsSnoc(history, Mark(key, record));
      published := if record.Some? then published + [record.value] else published;
      history := history + [Mark(key, record)];
      seen := seen + [key];
      if |seen| > WS_SEEN_FILL_IDS { seen := seen[1..]; }
    }

    /** A snapshot entry is recorded as seen up front, without publishing. */
    method FillSeen(e: Entry) returns (already: bool)
      requires Consistent()
      modifies this`seen, this`published, this`history
      ensures Consistent() && Model() == Seed(old(Model()), e)
      ensures already <==> FillKey(e).Some? && FillKey(e).value in old(seen)
    {
      var key := FillKey(e);
      if key.None? { return false; }
      if key.value in seen { return true; }
      Remember(key.value, None);
      return false;
    }

    function Resolve(e: Entry): (a: Attribution)
      reads this
      ensures a == Attribute(Model(), e)
    {
      if e.oid in owners then owners[e.oid]
      else Attribution(if e.oid != "" then e.oid else e.hash, None)
    }

    /** Publishes one parked fill now with the best attribution available. */
    method Flush(key: FillId)
      requires Consistent()
      modifies this`seen, this`published, this`history, this`parked
      ensures Consistent() && Model() == FlushParked(old(Model()), key)
    {
      if !IsParked(parked, key) {
        UnparkAbsent(parked, key);
        return;
      }
      var entry := EntryOf(parked, key);
      parked := Unpark(parked, key);
      if key in seen { return; }
      var record := Translate(entry, Resolve(entry));
      if record.None? { return; }
      Remember(key, record);
    }

    method ParkFill(key: FillId, e: Entry)
      requires Consistent()
      modifies this`seen, this`published, this`history, this`parked, this`holds
      ensures Consistent() && Model() == Park(old(Model()), key, e)
    {
      if |parked| >= PENDING_FILL_CAP {
        var oldest := parked[0].key;
        Flush(oldest);
      }
      parked := parked + [Parked(key, e)];
      holds := holds + multiset{key};
    }

    /** The live path: the window is consulted up front and marked only after a
        successful publication. */
    method PublishFillEntry(e: Entry)
      requires Consistent()
      modifies this`seen, this`published, this`history, this`parked, this`holds
      ensures Consistent() && Model() == Deliver(old(Model()), e)
    {
      var key := FillKey(e);
      if key.Some? && (key.value in seen || IsParked(parked, key.value)) { return; }
      if e.coin == "" { return; }
      var attributed := e.oid in owners;
      var record := Translate(e, Resolve(e));
      if record.None? { return; }
      if !attributed && key.Some? {
        ParkFill(key.value, e);
        return;
      }
      Remember(record.value.fillId, record);
    }

    method HoldElapsed(key: FillId)
      requires Consistent() && key in holds
      modifies this`seen, this`published, this`history, this`parked, this`holds
      ensures Consistent() && Model() == Expire(old(Model()), key)
    {
      FlushIgnoresHolds(Model(), holds - multiset{key}, key);
      Flush(key);
      holds := holds - multiset{key};
    }

    /** A REST page: history is only marked at startup, published after a gap. */
    method AbsorbFills(records: seq<FillRecord>, publishUnseen: bool)
      requires Consistent()
      modifies this`seen, this`published, this`history
      ensures Consistent() && Model() == Absorb(old(Model()), records, publishUnseen)
    {
      var i := 0;
      while i < |records|
        invariant 0 <= i <= |records|
        invariant Consistent()
        invariant Absorb(Model(), records[i..], publishUnseen) == Absorb(old(Model()), records, publishUnseen)
      {
        var r := records[i];
        assert records[i..][1..] == records[i + 1..];
        if r.fillId !in seen {
          Remember(r.fillId, if publishUnseen then Some(r) else None);
        }
        i := i + 1;
      }
    }

    method FlushAllParked()
      requires Consistent()
      modifies this`seen, this`published, this`history, this`parked, this`holds
      ensures Consistent() && Model() == FlushAll(old(Model()))
    {
      var keys := ParkedKeys(parked);
      var i := 0;
      while i < |keys|
        invariant 0 <= i <= |keys|
        invariant Consistent()
        invariant FlushKeys(Model(), keys[i..]) == FlushKeys(old(Model()), keys)
      {
        assert keys[i..][1..] == keys[i + 1..];
        Flush(keys[i]);
        i := i + 1;
      }
      holds := multiset{};
    }
  }
}
