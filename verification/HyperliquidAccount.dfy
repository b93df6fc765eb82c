/** Hyperliquid account pushes: full snapshots arrive on a heartbeat and are
    diffed against the last published truth, so that only transitions reach the
    event bus. The engine replays the events into its own mirror. */
module HyperliquidAccount {
  import opened Common

  // ---- Diffing keyed snapshots ----

  /** An event: a row that is new or moved, or a row that vanished. */
  datatype Change<K, V> = Moved(key: K, value: V) | Vanished(key: K, last: V)

  ghost predicate Touched<K(!new), V(!new)>(k: K, before: map<K, V>, after: map<K, V>) {
    if k in before && k in after then before[k] != after[k] else k in before || k in after
  }

  ghost predicate Reports<K(!new), V(!new)>(e: Change<K, V>, before: map<K, V>, after: map<K, V>) {
    && Touched(e.key, before, after)
    && (e.Moved? ==> e.key in after && e.value == after[e.key])
    && (e.Vanished? ==> e.key !in after && e.key in before && e.last == before[e.key])
  }

  ghost predicate Mentions<K(!new), V(!new)>(events: seq<Change<K, V>>, k: K) {
    exists i :: 0 <= i < |events| && events[i].key == k
  }

  /** The events announce each transition among the `done` keys exactly once. */
  ghost predicate Announces<K(!new), V(!new)>(
    events: seq<Change<K, V>>, before: map<K, V>, after: map<K, V>, done: set<K>)
  {
    && (forall i, j :: 0 <= i < j < |events| ==> events[i].key != events[j].key)
    && (forall i :: 0 <= i < |events| ==> Reports(events[i], before, after) && events[i].key in done)
    && (forall k :: k in done && Touched(k, before, after) ==> Mentions(events, k))
  }

  /** The baseline while the `done` keys have moved over to the new snapshot. */
  ghost predicate Between<K(!new), V(!new)>(baseline: map<K, V>, before: map<K, V>, after: map<K, V>, done: set<K>) {
    forall k ::
      && (k in done ==> (k in baseline <==> k in after) && (k in after ==> k in baseline && baseline[k] == after[k]))
      && (k !in done ==> (k in baseline <==> k in before) && (k in before ==> k in baseline && baseline[k] == before[k]))
  }

  lemma Announced<K(!new), V(!new)>(
    events: seq<Change<K, V>>, e: Change<K, V>, before: map<K, V>, after: map<K, V>, done: set<K>)
    requires Announces(events, before, after, done)
    requires e.key !in done && Reports(e, before, after)
    ensures Announces(events + [e], before, after, done + {e.key})
  {
    var all := events + [e];
    forall k | k in done + {e.key} && Touched(k, before, after) ensures Mentions(all, k) {
      if k == e.key {
        assert all[|events|].key == k;
      } else {
        assert Mentions(events, k);
        var i :| 0 <= i < |events| && events[i].key == k;
        assert all[i].key == k;
      }
    }
  }

  lemma BetweenDrop<K(!new), V(!new)>(baseline: map<K, V>, before: map<K, V>, after: map<K, V>, done: set<K>, k: K)
    requires Between(baseline, before, after, done) && k !in done && k !in after
    ensures Between(baseline - {k}, before, after, done + {k})
  {
  }

  lemma BetweenDone<K(!new), V(!new)>(baseline: map<K, V>, before: map<K, V>, after: map<K, V>, done: set<K>)
    requires Between(baseline, before, after, done) && done == before.Keys + after.Keys
    ensures baseline == after
  {
    forall k ensures k in baseline <==> k in after { assert k in done || k !in done; }
  }

  lemma Retire<K(!new)>(all: set<K>, gone: set<K>, k: K)
    requires k in gone && gone <= all
    ensures (all - gone) + {k} == all - (gone - {k})
  {
  }

  lemma BetweenLeft<K(!new), V(!new)>(baseline: map<K, V>, before: map<K, V>, after: map<K, V>)
    requires Between(baseline, before, after, after.Keys)
    ensures baseline.Keys - after.Keys == before.Keys - after.Keys
    ensures before.Keys + after.Keys - (before.Keys - after.Keys) == after.Keys
  {
    forall k ensures k in baseline.Keys - after.Keys <==> k in before.Keys - after.Keys { }
  }

  /** One more vanished key announced and dropped from the baseline. */
  lemma VanishOne<K(!new), V(!new)>(
    events: seq<Change<K, V>>, baseline: map<K, V>, before: map<K, V>, after: map<K, V>,
    all: set<K>, gone: set<K>, k: K)
    requires k in gone && gone <= all && gone !! after.Keys
    requires Between(baseline, before, after, all - gone) && Announces(events, before, after, all - gone)
    requires k in before
    ensures k in baseline
    ensures Between(baseline - {k}, before, after, all - (gone - {k}))
    ensures Announces(events + [Vanished(k, baseline[k])], before, after, all - (gone - {k}))
  {
    Retire(all, gone, k);
    Announced(events, Vanished(k, baseline[k]), before, after, all - gone);
    BetweenDrop(baseline, before, after, all - gone, k);
  }

  class SnapshotDiff<K(==, !new), V(==, !new)> {
    var baseline: map<K, V>
    var seeded: bool

    constructor ()
      ensures !seeded && baseline == map[]
    {
      baseline, seeded := map[], false;
    }

    method PublishMoved(current: map<K, V>) returns (events: seq<Change<K, V>>)
      modifies this`baseline
      ensures Announces(events, old(baseline), current, current.Keys)
      ensures Between(baseline, old(baseline), current, current.Keys)
    {
      events := [];
      ghost var before, done := baseline, {};
      var pending := current.Keys;
      while pending != {}
        invariant pending <= current.Keys && done == current.Keys - pending
        invariant Between(baseline, before, current, done)
        invariant Announces(events, before, current, done)
        decreases |pending|
      {
        var k :| k in pending;
        if k !in baseline || baseline[k] != current[k] {
          Announced(events, Moved(k, current[k]), before, current, done);
          events := events + [Moved(k, current[k])];
          baseline := baseline[k := current[k]];
        }
        pending, done := pending - {k}, done + {k};
      }
    }

    method PublishVanished(ghost before: map<K, V>, current: map<K, V>, moved: seq<Change<K, V>>)
      returns (events: seq<Change<K, V>>)
      requires Announces(moved, before, current, current.Keys)
      requires Between(baseline, before, current, current.Keys)
      modifies this`baseline
      ensures Announces(events, before, current, before.Keys + current.Keys)
      ensures baseline == current
    {
      events := moved;
      ghost var all := before.Keys + current.Keys;
      BetweenLeft(baseline, before, current);
      var gone := baseline.Keys - current.Keys;
      while gone != {}
        invariant gone <= all && gone !! current.Keys
        invariant Between(baseline, before, current, all - gone)
        invariant Announces(events, before, current, all - gone)
        decreases |gone|
      {
        var k :| k in gone;
        VanishOne(events, baseline, before, current, all, gone, k);
        events := events + [Vanished(k, baseline[k])];
        baseline := baseline - {k};
        gone := gone - {k};
      }
      BetweenDone(baseline, before, current, all);
    }

    /** The first push of a baseline's life only seeds; later ones publish each
        transition once, in an order left to the iteration of a set. */
    method Absorb(current: map<K, V>) returns (events: seq<Change<K, V>>)
      modifies this
      ensures seeded && baseline == current
      ensures !old(seeded) ==> events == []
      ensures old(seeded) ==> Announces(events, old(baseline), current, old(baseline).Keys + current.Keys)
    {
      if !seeded {
        baseline, seeded := current, true;
        return [];
      }
      events := PublishMoved(current);
      events := PublishVanished(old(baseline), current, events);
    }
  }

  // ---- Replaying the events ----

  ghost function Applied<K(!new), V(!new)>(m: map<K, V>, e: Change<K, V>): map<K, V> {
    match e
    case Moved(k, v) => m[k := v]
    case Vanished(k, _) => m - {k}
  }

  lemma AnnouncesTail<K(!new), V(!new)>(
    events: seq<Change<K, V>>, before: map<K, V>, after: map<K, V>, done: set<K>)
    requires events != [] && Announces(events, before, after, done)
    ensures Announces(events[1..], Applied(before, events[0]), after, done)
  {
    var e, rest, next := events[0], events[1..], Applied(before, events[0]);
    assert Reports(e, before, after);
    forall i | 0 <= i < |rest| ensures Reports(rest[i], next, after) && rest[i].key in done {
      assert rest[i] == events[i + 1];
      assert rest[i].key != e.key;
    }
    forall k | k in done && Touched(k, next, after) ensures Mentions(rest, k) {
      assert k != e.key;
      assert Mentions(events, k);
      var i :| 0 <= i < |events| && events[i].key == k;
      assert rest[i - 1].key == k;
    }
  }

  lemma NothingAnnounced<K(!new), V(!new)>(before: map<K, V>, after: map<K, V>)
    requires Announces([], before, after, before.Keys + after.Keys)
    ensures before == after
  {
    forall k | k in before.Keys + after.Keys ensures !Touched(k, before, after) {
      var none: seq<Change<K, V>> := [];
      assert !Mentions(none, k);
    }
  }

  // ---- Positions ----

  /** The published part of a leg; the position id is the coin with a fixed
      suffix, so the coin stands for both. */
  datatype PositionRow = PositionRow(quantity: int, entryPrice: int)

  datatype WireLeg = NotAnObject | WireLeg(coin: string, oneWay: bool, size: Option<int>, entryPrice: Option<int>)

  datatype PositionPush = MalformedPositions | Legs(legs: seq<WireLeg>)

  datatype PositionUpdate = PositionUpdate(coin: string, row: PositionRow)

  /** Untranslatable legs and zero sizes are skipped. */
  function TranslateLeg(w: WireLeg): Option<PositionUpdate> {
    if w.NotAnObject? || w.coin == "" || !w.oneWay || w.size.None? || w.size.value == 0 then None
    else Some(PositionUpdate(w.coin, PositionRow(w.size.value, if w.entryPrice.Some? then w.entryPrice.value else 0)))
  }

  /** A coin listed twice keeps its last leg. */
  function TranslateLegs(legs: seq<WireLeg>): (r: map<string, PositionRow>)
    ensures forall c :: c in r ==> r[c].quantity != 0
  {
    if legs == [] then map[]
    else
      var front := TranslateLegs(legs[..|legs| - 1]);
      var last := TranslateLeg(legs[|legs| - 1]);
      if last.None? then front else front[last.value.coin := last.value.row]
  }

  /** A vanished leg is announced with a zero quantity: the close signal. */
  function PositionEvent(e: Change<string, PositionRow>): PositionUpdate {
    match e
    case Moved(coin, row) => PositionUpdate(coin, row)
    case Vanished(coin, last) => PositionUpdate(coin, last.(quantity := 0))
  }

  /** The engine's rule: a zero quantity deletes the leg, anything else upserts. */
  function PersistPosition(mirror: map<string, PositionRow>, u: PositionUpdate): map<string, PositionRow> {
    if u.row.quantity == 0 then mirror - {u.coin} else mirror[u.coin := u.row]
  }

  function ReplayPositions(mirror: map<string, PositionRow>, updates: seq<PositionUpdate>): map<string, PositionRow>
    decreases |updates|
  {
    if updates == [] then mirror else ReplayPositions(PersistPosition(mirror, updates[0]), updates[1..])
  }

  function PositionEvents(events: seq<Change<string, PositionRow>>): (r: seq<PositionUpdate>)
    ensures |r| == |events|
  {
    if events == [] then [] else [PositionEvent(events[0])] + PositionEvents(events[1..])
  }

  lemma {:induction false} ReplayReachesPush(
    events: seq<Change<string, PositionRow>>, before: map<string, PositionRow>, after: map<string, PositionRow>,
    all: set<string>)
    requires Announces(events, before, after, all) && before.Keys + after.Keys <= all
    requires forall c :: c in after ==> after[c].quantity != 0
    ensures ReplayPositions(before, PositionEvents(events)) == after
    decreases |events|
  {
    if events == [] {
      assert Announces([], before, after, before.Keys + after.Keys);
      NothingAnnounced(before, after);
    } else {
      AnnouncesTail(events, before, after, all);
      assert Reports(events[0], before, after);
      var next := Applied(before, events[0]);
      assert PersistPosition(before, PositionEvent(events[0])) == next;
      ReplayReachesPush(events[1..], next, after, all);
      assert PositionEvents(events)[1..] == PositionEvents(events[1..]);
    }
  }

  /** A leg the adapter can publish: a one-way leg of a coin with a size. */
  predicate UsableLeg(w: WireLeg) {
    w.WireLeg? && w.coin != "" && w.oneWay && w.size.Some? && w.size.value != 0
  }

  /** A push shows a coin as its last usable leg has it: the signed size, and the
      entry price or zero. */
  lemma {:induction false} PushShowsLeg(legs: seq<WireLeg>, i: nat)
    requires i < |legs| && UsableLeg(legs[i])
    requires forall j :: i < j < |legs| ==> !UsableLeg(legs[j]) || legs[j].coin != legs[i].coin
    ensures legs[i].coin in TranslateLegs(legs)
    ensures TranslateLegs(legs)[legs[i].coin].quantity == legs[i].size.value
    ensures TranslateLegs(legs)[legs[i].coin].entryPrice == if legs[i].entryPrice == None then 0 else legs[i].entryPrice.value
  {
    var n := |legs| - 1;
    if i < n {
      assert forall j :: i < j < n ==> legs[..n][j] == legs[j];
      PushShowsLeg(legs[..n], i);
    }
  }

  /** And shows nothing else. */
  lemma {:induction false} PushShowsOnlyLegs(legs: seq<WireLeg>, coin: string)
    requires coin in TranslateLegs(legs)
    ensures exists i :: 0 <= i < |legs| && UsableLeg(legs[i]) && legs[i].coin == coin
  {
    var n := |legs| - 1;
    if !(UsableLeg(legs[n]) && legs[n].coin == coin) {
      PushShowsOnlyLegs(legs[..n], coin);
      var i :| 0 <= i < n && UsableLeg(legs[..n][i]) && legs[..n][i].coin == coin;
      assert UsableLeg(legs[i]);
    }
  }

  datatype Feed<K, V> = Feed(seeded: bool, baseline: map<K, V>)

  ghost predicate PublishesPositions(
    updates: seq<PositionUpdate>, before: map<string, PositionRow>, after: map<string, PositionRow>)
  {
    exists events: seq<Change<string, PositionRow>> ::
      updates == PositionEvents(events) && Announces(events, before, after, before.Keys + after.Keys)
  }

  /** What one position push does to the feed and what it publishes. */
  ghost predicate PositionStep(
    s: Feed<string, PositionRow>, push: PositionPush, t: Feed<string, PositionRow>, updates: seq<PositionUpdate>)
  {
    match push
    case MalformedPositions => t == s && updates == []
    case Legs(legs) =>
      && t == Feed(true, TranslateLegs(legs))
      && (!s.seeded ==> updates == [])
      && (s.seeded ==> PublishesPositions(updates, s.baseline, t.baseline))
  }

  method HandleClearinghouse(diff: SnapshotDiff<string, PositionRow>, push: PositionPush)
    returns (updates: seq<PositionUpdate>)
    modifies diff
    ensures PositionStep(old(Feed(diff.seeded, diff.baseline)), push, Feed(diff.seeded, diff.baseline), updates)
  {
    if push.MalformedPositions? { return []; }
    var current: map<string, PositionRow> := map[];
    for i := 0 to |push.legs|
      invariant current == TranslateLegs(push.legs[..i])
    {
      assert push.legs[..i + 1][..i] == push.legs[..i];
      var leg := TranslateLeg(push.legs[i]);
      if leg.Some? { current := current[leg.value.coin := leg.value.row]; }
    }
    assert push.legs[..|push.legs|] == push.legs;
    var events := diff.Absorb(current);
    updates := PositionEvents(events);
  }

  /** The legs of the latest well-formed push, or the seed before any. */
  function LatestLegs(seed: map<string, PositionRow>, pushes: seq<PositionPush>): map<string, PositionRow> {
    if pushes == [] then seed
    else
      var last := pushes[|pushes| - 1];
      if last.Legs? then TranslateLegs(last.legs) else LatestLegs(seed, pushes[..|pushes| - 1])
  }

  /** Any run of pushes after the seed, with what each published. */
  ghost predicate PositionRun(
    feeds: seq<Feed<string, PositionRow>>, pushes: seq<PositionPush>, published: seq<seq<PositionUpdate>>)
  {
    && |feeds| == |pushes| + 1 && |published| == |pushes|
    && feeds[0].seeded
    && forall i :: 0 <= i < |pushes| ==> PositionStep(feeds[i], pushes[i], feeds[i + 1], published[i])
  }

  function ReplayAllPositions(mirror: map<string, PositionRow>, published: seq<seq<PositionUpdate>>): map<string, PositionRow> {
    if published == [] then mirror
    else ReplayPositions(ReplayAllPositions(mirror, published[..|published| - 1]), published[|published| - 1])
  }

  /** A mirror that agreed with the seed equals the legs of the latest
      well-formed push after any run of pushes, malformed ones included. */
  lemma {:induction false} PositionMirrorFollows(
    feeds: seq<Feed<string, PositionRow>>, pushes: seq<PositionPush>, published: seq<seq<PositionUpdate>>)
    requires PositionRun(feeds, pushes, published)
    ensures ReplayAllPositions(feeds[0].baseline, published) == LatestLegs(feeds[0].baseline, pushes)
    ensures feeds[|pushes|] == Feed(true, LatestLegs(feeds[0].baseline, pushes))
    decreases |pushes|
  {
    if pushes != [] {
      var n := |pushes| - 1;
      var f, p, q := feeds[..n + 1], pushes[..n], published[..n];
      assert PositionRun(f, p, q) by {
        forall i | 0 <= i < |p| ensures PositionStep(f[i], p[i], f[i + 1], q[i]) {
          assert PositionStep(feeds[i], pushes[i], feeds[i + 1], published[i]);
        }
      }
      PositionMirrorFollows(f, p, q);
      var s, t := feeds[n], feeds[n + 1];
      assert f[n] == s;
      assert PositionStep(s, pushes[n], t, published[n]);
      if pushes[n].Legs? {
        var events: seq<Change<string, PositionRow>> :| published[n] == PositionEvents(events)
          && Announces(events, s.baseline, t.baseline, s.baseline.Keys + t.baseline.Keys);
        ReplayReachesPush(events, s.baseline, t.baseline, s.baseline.Keys + t.baseline.Keys);
      }
    }
  }

  /** A heartbeat that repeats the published truth publishes nothing. */
  lemma HeartbeatIsSilent(s: Feed<string, PositionRow>, legs: seq<WireLeg>, t: Feed<string, PositionRow>, updates: seq<PositionUpdate>)
    requires s.seeded && PositionStep(s, Legs(legs), t, updates)
    ensures updates == [] <==> s.baseline == TranslateLegs(legs)
  {
    var events: seq<Change<string, PositionRow>> :| updates == PositionEvents(events)
      && Announces(events, s.baseline, t.baseline, s.baseline.Keys + t.baseline.Keys);
    if events != [] {
      assert Reports(events[0], s.baseline, t.baseline);
    } else {
      NothingAnnounced(s.baseline, t.baseline);
    }
  }

  /** Some leg of the push translates to this coin. */
  predicate Carries(legs: seq<WireLeg>, coin: string) {
    exists i :: 0 <= i < |legs| && TranslateLeg(legs[i]).Some? && TranslateLeg(legs[i]).value.coin == coin
  }

  lemma {:induction false} CarriedCoin(legs: seq<WireLeg>, coin: string)
    ensures coin in TranslateLegs(legs) <==> Carries(legs, coin)
  {
    if legs != [] {
      var front := legs[..|legs| - 1];
      CarriedCoin(front, coin);
      if i :| 0 <= i < |front| && TranslateLeg(front[i]).Some? && TranslateLeg(front[i]).value.coin == coin {
        assert TranslateLeg(legs[i]).value.coin == coin;
      }
      if i :| 0 <= i < |legs| && TranslateLeg(legs[i]).Some? && TranslateLeg(legs[i]).value.coin == coin {
        assert i < |front| ==> TranslateLeg(front[i]).value.coin == coin;
      }
    }
  }

  /** The step published the close of this coin. */
  predicate Closes(updates: seq<PositionUpdate>, coin: string) {
    exists i :: 0 <= i < |updates| && updates[i].coin == coin && updates[i].row.quantity == 0
  }

  /** The protection against malformed pushes stops at the list. A published coin
      is closed exactly when no leg of the push translates to it, so a leg that is
      there but malformed closes its position. */
  lemma MalformedLegCloses(
    s: Feed<string, PositionRow>, legs: seq<WireLeg>, t: Feed<string, PositionRow>, updates: seq<PositionUpdate>,
    coin: string)
    requires s.seeded && PositionStep(s, Legs(legs), t, updates)
    ensures Closes(updates, coin) <==> coin in s.baseline && !Carries(legs, coin)
  {
    CarriedCoin(legs, coin);
    var events: seq<Change<string, PositionRow>> :| updates == PositionEvents(events)
      && Announces(events, s.baseline, t.baseline, s.baseline.Keys + t.baseline.Keys);
    if i :| 0 <= i < |updates| && updates[i].coin == coin && updates[i].row.quantity == 0 {
      PositionEventAt(events, i);
      assert Reports(events[i], s.baseline, t.baseline);
    }
    if coin in s.baseline && !Carries(legs, coin) {
      assert Touched(coin, s.baseline, t.baseline);
      assert Mentions(events, coin);
      var i :| 0 <= i < |events| && events[i].key == coin;
      assert Reports(events[i], s.baseline, t.baseline);
      PositionEventAt(events, i);
      assert updates[i].coin == coin && updates[i].row.quantity == 0;
    }
  }

  lemma {:induction false} PositionEventAt(events: seq<Change<string, PositionRow>>, i: nat)
    requires i < |events|
    ensures PositionEvents(events)[i] == PositionEvent(events[i])
  {
    if i > 0 { PositionEventAt(events[1..], i - 1); }
  }

  // ---- Balances ----

  datatype BalanceRow = BalanceRow(total: int, free: int, used: int)

  const NO_BALANCE := BalanceRow(0, 0, 0)

  datatype WireRow = NotARow | WireRow(currency: string, total: Option<int>, hold: Option<int>)

  datatype BalancePush = MalformedBalances | Rows(rows: seq<WireRow>)

  datatype BalanceUpdate = BalanceUpdate(currency: string, row: BalanceRow)

  /** Free is total minus hold, clamped at zero; rows whose total is zero are dust. */
  function TranslateRow(w: WireRow): Option<BalanceUpdate> {
    if w.NotARow? || w.currency == "" || w.total.None? then None
    else
      var used := if w.hold.Some? then w.hold.value else 0;
      var free := if w.total.value - used < 0 then 0 else w.total.value - used;
      if free + used == 0 then None else Some(BalanceUpdate(w.currency, BalanceRow(free + used, free, used)))
  }

  function TranslateRows(rows: seq<WireRow>): (r: map<string, BalanceRow>)
    ensures forall c :: c in r ==> r[c].total != 0 && r[c].free + r[c].used == r[c].total && r[c].free >= 0
  {
    if rows == [] then map[]
    else
      var front := TranslateRows(rows[..|rows| - 1]);
      var last := TranslateRow(rows[|rows| - 1]);
      if last.None? then front else front[last.value.currency := last.value.row]
  }

  function Hold(w: WireRow): int
    requires w.WireRow?
  {
    if w.hold == None then 0 else w.hold.value
  }

  /** A row the adapter can publish: of a currency, and not dust. */
  predicate UsableRow(w: WireRow) {
    w.WireRow? && w.currency != "" && w.total.Some? && (w.total.value >= Hold(w) ==> w.total.value != 0)
    && (w.total.value < Hold(w) ==> Hold(w) != 0)
  }

  /** What is held is used, the rest of the total is free, and a hold above the total
      raises it. */
  predicate Splits(row: BalanceRow, total: int, hold: int) {
    && row.used == hold && row.free == (if hold <= total then total - hold else 0)
    && row.total == (if hold <= total then total else hold)
  }

  lemma RowIsUsable(w: WireRow)
    ensures UsableRow(w) <==> TranslateRow(w).Some?
    ensures UsableRow(w) ==> TranslateRow(w).value.currency == w.currency && Splits(TranslateRow(w).value.row, w.total.value, Hold(w))
  {
  }

  /** A push shows a currency as its last usable row has it. */
  lemma {:induction false} PushShowsRow(rows: seq<WireRow>, i: nat)
    requires i < |rows| && UsableRow(rows[i])
    requires forall j :: i < j < |rows| ==> !UsableRow(rows[j]) || rows[j].currency != rows[i].currency
    ensures rows[i].currency in TranslateRows(rows)
    ensures Splits(TranslateRows(rows)[rows[i].currency], rows[i].total.value, Hold(rows[i]))
  {
    var n := |rows| - 1;
    RowIsUsable(rows[n]);
    if i < n { PushShowsRow(rows[..n], i); }
  }

  /** And shows nothing else. */
  lemma {:induction false} PushShowsOnlyRows(rows: seq<WireRow>, currency: string)
    requires currency in TranslateRows(rows)
    ensures exists i :: 0 <= i < |rows| && UsableRow(rows[i]) && rows[i].currency == currency
  {
    var n := |rows| - 1;
    RowIsUsable(rows[n]);
    if !(UsableRow(rows[n]) && rows[n].currency == currency) {
      PushShowsOnlyRows(rows[..n], currency);
      var i :| 0 <= i < n && UsableRow(rows[..n][i]) && rows[..n][i].currency == currency;
      assert UsableRow(rows[i]);
    }
  }

  /** A vanished currency publishes one final zero row, unless it was zero already. */
  function BalanceEvents(events: seq<Change<string, BalanceRow>>): seq<BalanceUpdate> {
    if events == [] then []
    else
      var rest := BalanceEvents(events[1..]);
      match events[0]
      case Moved(currency, row) => [BalanceUpdate(currency, row)] + rest
      case Vanished(currency, last) =>
        if last.total == 0 then rest else [BalanceUpdate(currency, NO_BALANCE)] + rest
  }

  /** The engine upserts every balance row. */
  function ReplayBalances(mirror: map<string, BalanceRow>, updates: seq<BalanceUpdate>): map<string, BalanceRow>
    decreases |updates|
  {
    if updates == [] then mirror else ReplayBalances(mirror[updates[0].currency := updates[0].row], updates[1..])
  }

  function Held(m: map<string, BalanceRow>, currency: string): BalanceRow {
    if currency in m then m[currency] else NO_BALANCE
  }

  /** Equality of balances with absence meaning zero. */
  ghost predicate SameBalances(a: map<string, BalanceRow>, b: map<string, BalanceRow>) {
    forall c :: Held(a, c) == Held(b, c)
  }

  lemma {:induction false} ReplayReachesRows(
    mirror: map<string, BalanceRow>, events: seq<Change<string, BalanceRow>>,
    before: map<string, BalanceRow>, after: map<string, BalanceRow>, all: set<string>)
    requires Announces(events, before, after, all) && before.Keys + after.Keys <= all
    requires SameBalances(mirror, before)
    requires forall c :: c in before ==> before[c].total != 0
    requires forall c :: c in after ==> after[c].total != 0
    ensures SameBalances(ReplayBalances(mirror, BalanceEvents(events)), after)
    decreases |events|
  {
    if events == [] {
      assert Announces([], before, after, before.Keys + after.Keys);
      NothingAnnounced(before, after);
    } else {
      AnnouncesTail(events, before, after, all);
      var e := events[0];
      assert Reports(e, before, after);
      var row := if e.Moved? then e.value else NO_BALANCE;
      var next, mirrored := Applied(before, e), mirror[e.key := row];
      forall c ensures Held(mirrored, c) == Held(next, c) {
        assert Held(mirror, c) == Held(before, c);
      }
      assert BalanceEvents(events)[0] == BalanceUpdate(e.key, row);
      assert BalanceEvents(events)[1..] == BalanceEvents(events[1..]);
      ReplayReachesRows(mirrored, events[1..], next, after, all);
    }
  }

  ghost predicate PublishesBalances(
    updates: seq<BalanceUpdate>, before: map<string, BalanceRow>, after: map<string, BalanceRow>)
  {
    exists events: seq<Change<string, BalanceRow>> ::
      updates == BalanceEvents(events) && Announces(events, before, after, before.Keys + after.Keys)
  }

  ghost predicate BalanceStep(
    s: Feed<string, BalanceRow>, push: BalancePush, t: Feed<string, BalanceRow>, updates: seq<BalanceUpdate>)
  {
    match push
    case MalformedBalances => t == s && updates == []
    case Rows(rows) =>
      && t == Feed(true, TranslateRows(rows))
      && (!s.seeded ==> updates == [])
      && (s.seeded ==> PublishesBalances(updates, s.baseline, t.baseline))
  }

  method HandleSpot(diff: SnapshotDiff<string, BalanceRow>, push: BalancePush)
    returns (updates: seq<BalanceUpdate>)
    modifies diff
    ensures BalanceStep(old(Feed(diff.seeded, diff.baseline)), push, Feed(diff.seeded, diff.baseline), updates)
  {
    if push.MalformedBalances? { return []; }
    var current: map<string, BalanceRow> := map[];
    for i := 0 to |push.rows|
      invariant current == TranslateRows(push.rows[..i])
    {
      assert push.rows[..i + 1][..i] == push.rows[..i];
      var row := TranslateRow(push.rows[i]);
      if row.Some? { current := current[row.value.currency := row.value.row]; }
    }
    assert push.rows[..|push.rows|] == push.rows;
    var events := diff.Absorb(current);
    updates := BalanceEvents(events);
  }

  function LatestRows(seed: map<string, BalanceRow>, pushes: seq<BalancePush>): map<string, BalanceRow> {
    if pushes == [] then seed
    else
      var last := pushes[|pushes| - 1];
      if last.Rows? then TranslateRows(last.rows) else LatestRows(seed, pushes[..|pushes| - 1])
  }

  ghost predicate BalanceRun(
    feeds: seq<Feed<string, BalanceRow>>, pushes: seq<BalancePush>, published: seq<seq<BalanceUpdate>>)
  {
    && |feeds| == |pushes| + 1 && |published| == |pushes|
    && feeds[0].seeded && (forall c :: c in feeds[0].baseline ==> feeds[0].baseline[c].total != 0)
    && forall i :: 0 <= i < |pushes| ==> BalanceStep(feeds[i], pushes[i], feeds[i + 1], published[i])
  }

  function ReplayAllBalances(mirror: map<string, BalanceRow>, published: seq<seq<BalanceUpdate>>): map<string, BalanceRow> {
    if published == [] then mirror
    else ReplayBalances(ReplayAllBalances(mirror, published[..|published| - 1]), published[|published| - 1])
  }

  /** A mirror that agreed with the seed, absence meaning zero, agrees with the
      rows of the latest well-formed push after any run of pushes. */
  lemma {:induction false} BalanceMirrorFollows(
    mirror: map<string, BalanceRow>,
    feeds: seq<Feed<string, BalanceRow>>, pushes: seq<BalancePush>, published: seq<seq<BalanceUpdate>>)
    requires BalanceRun(feeds, pushes, published) && SameBalances(mirror, feeds[0].baseline)
    ensures SameBalances(ReplayAllBalances(mirror, published), LatestRows(feeds[0].baseline, pushes))
    ensures feeds[|pushes|] == Feed(true, LatestRows(feeds[0].baseline, pushes))
    ensures forall c :: c in feeds[|pushes|].baseline ==> feeds[|pushes|].baseline[c].total != 0
    decreases |pushes|
  {
    if pushes != [] {
      var n := |pushes| - 1;
      var f, p, q := feeds[..n + 1], pushes[..n], published[..n];
      assert BalanceRun(f, p, q) by {
        forall i | 0 <= i < |p| ensures BalanceStep(f[i], p[i], f[i + 1], q[i]) {
          assert BalanceStep(feeds[i], pushes[i], feeds[i + 1], published[i]);
        }
      }
      BalanceMirrorFollows(mirror, f, p, q);
      var s, t := feeds[n], feeds[n + 1];
      assert f[n] == s;
      assert BalanceStep(s, pushes[n], t, published[n]);
      if pushes[n].Rows? {
        var events: seq<Change<string, BalanceRow>> :| published[n] == BalanceEvents(events)
          && Announces(events, s.baseline, t.baseline, s.baseline.Keys + t.baseline.Keys);
        ReplayReachesRows(ReplayAllBalances(mirror, q), events, s.baseline, t.baseline, s.baseline.Keys + t.baseline.Keys);
      }
    }
  }

  /** Some row of the push translates to this currency. */
  predicate Lists(rows: seq<WireRow>, currency: string) {
    exists i :: 0 <= i < |rows| && TranslateRow(rows[i]).Some? && TranslateRow(rows[i]).value.currency == currency
  }

  lemma {:induction false} ListedCurrency(rows: seq<WireRow>, currency: string)
    ensures currency in TranslateRows(rows) <==> Lists(rows, currency)
  {
    if rows != [] {
      var front := rows[..|rows| - 1];
      ListedCurrency(front, currency);
      if i :| 0 <= i < |front| && TranslateRow(front[i]).Some? && TranslateRow(front[i]).value.currency == currency {
        assert TranslateRow(rows[i]).value.currency == currency;
      }
      if i :| 0 <= i < |rows| && TranslateRow(rows[i]).Some? && TranslateRow(rows[i]).value.currency == currency {
        assert i < |front| ==> TranslateRow(front[i]).value.currency == currency;
      }
    }
  }

  lemma {:induction false} ZeroedIffVanished(events: seq<Change<string, BalanceRow>>, currency: string)
    requires forall i :: 0 <= i < |events| && events[i].Moved? ==> events[i].value.total != 0
    ensures BalanceUpdate(currency, NO_BALANCE) in BalanceEvents(events) <==>
            exists i :: 0 <= i < |events| && events[i].Vanished? && events[i].key == currency && events[i].last.total != 0
  {
    if events != [] {
      var rest := events[1..];
      ZeroedIffVanished(rest, currency);
      assert forall i :: 0 <= i < |rest| ==> rest[i] == events[i + 1];
      if i :| 0 <= i < |rest| && rest[i].Vanished? && rest[i].key == currency && rest[i].last.total != 0 {
        assert events[i + 1].Vanished?;
      }
      if i :| 0 <= i < |events| && events[i].Vanished? && events[i].key == currency && events[i].last.total != 0 {
        assert i > 0 ==> rest[i - 1].Vanished?;
      }
    }
  }

  /** Balances fail the same way: a held currency is published as zero exactly when
      no row of the push translates to it, a malformed row included. */
  lemma MalformedRowZeroes(
    s: Feed<string, BalanceRow>, rows: seq<WireRow>, t: Feed<string, BalanceRow>, updates: seq<BalanceUpdate>,
    currency: string)
    requires s.seeded && BalanceStep(s, Rows(rows), t, updates)
    requires forall c :: c in s.baseline ==> s.baseline[c].total != 0
    ensures BalanceUpdate(currency, NO_BALANCE) in updates <==> currency in s.baseline && !Lists(rows, currency)
  {
    ListedCurrency(rows, currency);
    var events: seq<Change<string, BalanceRow>> :| updates == BalanceEvents(events)
      && Announces(events, s.baseline, t.baseline, s.baseline.Keys + t.baseline.Keys);
    assert forall i :: 0 <= i < |events| ==> Reports(events[i], s.baseline, t.baseline);
    ZeroedIffVanished(events, currency);
    if currency in s.baseline && !Lists(rows, currency) {
      assert Touched(currency, s.baseline, t.baseline);
      assert Mentions(events, currency);
    }
  }
}
