/** The fill side of a reconciliation pass: the window above the persisted
    watermark is compared per order, discrepant orders are rewritten from the
    platform snapshot, and a clean pass moves the watermark. */
module EngineFillWindow {
  import opened Common

  datatype Fill = Fill(id: string, cid: string, quantity: int, time: int, correlation: string)

  /** The store's fill rows, keyed by platform fill id. */
  type Store = map<string, Fill>

  /** A platform snapshot: fills grouped by order. */
  type Snapshot = map<string, seq<Fill>>

  datatype Window = Window(start: int, end: int) {
    predicate Holds(t: int) { start <= t <= end }
  }

  /** The same fill up to the correlation id, which only the store knows. */
  predicate SameFill(a: Fill, b: Fill) {
    a.id == b.id && a.cid == b.cid && a.quantity == b.quantity && a.time == b.time
  }

  // ---- Totals ----

  function Total(fills: seq<Fill>): int {
    if fills == [] then 0 else Total(fills[..|fills| - 1]) + fills[|fills| - 1].quantity
  }

  function FillsOf(s: Snapshot, cid: string): seq<Fill> {
    if cid in s then s[cid] else []
  }

  /** The rows of one order inside the window. */
  function Slice(store: Store, cid: string, w: Window): Store {
    map id | id in store && store[id].cid == cid && w.Holds(store[id].time) :: store[id]
  }

  ghost function Pick(m: Store): string
    requires m != map[]
    ensures Pick(m) in m
  {
    var k :| k in m;
    k
  }

  ghost function Sum(m: Store): int
    decreases |m|
  {
    if m == map[] then 0 else m[Pick(m)].quantity + Sum(m - {Pick(m)})
  }

  lemma {:induction false} SumRemove(m: Store, k: string)
    requires k in m
    ensures Sum(m) == m[k].quantity + Sum(m - {k})
    decreases |m|
  {
    var p := Pick(m);
    if p != k {
      SumRemove(m - {p}, k);
      SumRemove(m - {k}, p);
      assert m - {p} - {k} == m - {k} - {p};
    }
  }

  lemma SumAdd(m: Store, k: string, f: Fill)
    requires k !in m
    ensures Sum(m[k := f]) == Sum(m) + f.quantity
  {
    SumRemove(m[k := f], k);
    assert m[k := f] - {k} == m;
  }

  /** Positive quantities: a part sums to the whole only if it is the whole. */
  lemma {:induction false} SumOfPart(part: Store, whole: Store)
    requires forall k :: k in part ==> k in whole && whole[k] == part[k]
    requires forall k :: k in whole ==> whole[k].quantity > 0
    ensures Sum(part) <= Sum(whole)
    ensures Sum(part) == Sum(whole) <==> part == whole
    decreases |whole|
  {
    if whole == map[] {
      assert part == map[];
    } else {
      var p := Pick(whole);
      if p in part {
        SumRemove(part, p);
        SumOfPart(part - {p}, whole - {p});
        assert part == (part - {p})[p := part[p]] && whole == (whole - {p})[p := part[p]];
      } else {
        SumOfPart(part, whole - {p});
      }
    }
  }

  // ---- Lists and tables ----

  ghost predicate UniqueIds(fills: seq<Fill>) {
    forall i, j :: 0 <= i < j < |fills| ==> fills[i].id != fills[j].id
  }

  /** The rows a list of fills leaves when upserted into an empty table. */
  function Table(fills: seq<Fill>): (r: Store)
    ensures forall k :: k in r ==> r[k].id == k
  {
    if fills == [] then map[] else Table(fills[..|fills| - 1])[fills[|fills| - 1].id := fills[|fills| - 1]]
  }

  lemma {:induction false} TableHas(fills: seq<Fill>, k: string)
    ensures k in Table(fills) <==> exists i :: 0 <= i < |fills| && fills[i].id == k
    ensures k in Table(fills) ==> Table(fills)[k] in fills
  {
    if fills != [] {
      var n := |fills| - 1;
      TableHas(fills[..n], k);
      assert fills == fills[..n] + [fills[n]];
      if i :| 0 <= i < |fills| && fills[i].id == k { assert i < n ==> fills[..n][i].id == k; }
    }
  }

  lemma {:induction false} TableTotal(fills: seq<Fill>)
    requires UniqueIds(fills)
    ensures Sum(Table(fills)) == Total(fills)
  {
    if fills != [] {
      var n := |fills| - 1;
      FreshId(fills);
      TableTotal(fills[..n]);
      SumAdd(Table(fills[..n]), fills[n].id, fills[n]);
    }
  }

  /** The query's rows grouped by order. */
  function Grouped(rows: seq<Fill>): Snapshot {
    if rows == [] then map[]
    else
      var front, last := Grouped(rows[..|rows| - 1]), rows[|rows| - 1];
      front[last.cid := FillsOf(front, last.cid) + [last]]
  }

  function OfOrder(rows: seq<Fill>, cid: string): seq<Fill> {
    if rows == [] then []
    else
      var front, last := OfOrder(rows[..|rows| - 1], cid), rows[|rows| - 1];
      if last.cid == cid then front + [last] else front
  }

  lemma {:induction false} GroupedIsOfOrder(rows: seq<Fill>, cid: string)
    ensures FillsOf(Grouped(rows), cid) == OfOrder(rows, cid)
  {
    if rows != [] { GroupedIsOfOrder(rows[..|rows| - 1], cid); }
  }

  function OnlyOrder(m: Store, cid: string): Store {
    map id | id in m && m[id].cid == cid :: m[id]
  }

  lemma OnlyOrderAdd(m: Store, cid: string, f: Fill)
    requires f.id !in m
    ensures OnlyOrder(m[f.id := f], cid) == if f.cid == cid then OnlyOrder(m, cid)[f.id := f] else OnlyOrder(m, cid)
  {
  }

  lemma TotalSnoc(fills: seq<Fill>, f: Fill)
    ensures Total(fills + [f]) == Total(fills) + f.quantity
  {
    assert (fills + [f])[..|fills|] == fills;
  }

  lemma FreshId(rows: seq<Fill>)
    requires rows != [] && UniqueIds(rows)
    ensures UniqueIds(rows[..|rows| - 1]) && rows[|rows| - 1].id !in Table(rows[..|rows| - 1])
  {
    TableHas(rows[..|rows| - 1], rows[|rows| - 1].id);
  }

  lemma {:induction false} OfOrderTotal(rows: seq<Fill>, cid: string)
    requires UniqueIds(rows)
    ensures Total(OfOrder(rows, cid)) == Sum(OnlyOrder(Table(rows), cid))
  {
    if rows == [] {
      assert OnlyOrder(Table(rows), cid) == map[];
    } else {
      var front, last := rows[..|rows| - 1], rows[|rows| - 1];
      FreshId(rows);
      OfOrderTotal(front, cid);
      OnlyOrderAdd(Table(front), cid, last);
      if last.cid == cid {
        SumAdd(OnlyOrder(Table(front), cid), last.id, last);
        TotalSnoc(OfOrder(front, cid), last);
      }
    }
  }

  /** `rows` lists the stored fills of the window, each once. */
  ghost predicate IsQueryOf(rows: seq<Fill>, store: Store, w: Window) {
    && UniqueIds(rows)
    && Table(rows) == map id | id in store && w.Holds(store[id].time) :: store[id]
  }

  /** The engine's sums over its grouped query are sums over the stored rows. */
  lemma GroupedTotals(rows: seq<Fill>, store: Store, w: Window, cid: string)
    requires IsQueryOf(rows, store, w)
    ensures Total(FillsOf(Grouped(rows), cid)) == Sum(Slice(store, cid, w))
  {
    GroupedIsOfOrder(rows, cid);
    OfOrderTotal(rows, cid);
    assert OnlyOrder(Table(rows), cid) == Slice(store, cid, w);
  }

  // ---- Detection ----

  /** The two sides disagree on the quantity filled for the order. */
  ghost predicate Discrepant(store: Store, s: Snapshot, w: Window, cid: string) {
    Sum(Slice(store, cid, w)) != Total(FillsOf(s, cid))
  }

  method FillDiscrepantOrderIds(local: Snapshot, platform: Snapshot) returns (ids: seq<string>)
    ensures forall c :: c in ids <==> Total(FillsOf(local, c)) != Total(FillsOf(platform, c))
    ensures forall i, j :: 0 <= i < j < |ids| ==> ids[i] != ids[j]
  {
    ids := [];
    var todo := local.Keys + platform.Keys;
    while todo != {}
      invariant todo <= local.Keys + platform.Keys
      invariant forall c :: c in ids ==> c !in todo
      invariant forall c :: c in ids ==> Total(FillsOf(local, c)) != Total(FillsOf(platform, c))
      invariant forall c :: c in local.Keys + platform.Keys && c !in todo ==>
                  (c in ids <==> Total(FillsOf(local, c)) != Total(FillsOf(platform, c)))
      invariant forall i, j :: 0 <= i < j < |ids| ==> ids[i] != ids[j]
    {
      var c :| c in todo;
      todo := todo - {c};
      if Total(FillsOf(local, c)) != Total(FillsOf(platform, c)) { ids := ids + [c]; }
    }
  }

  /** Only fills up to the settle boundary are compared. */
  function Kept(fills: seq<Fill>, end: int): seq<Fill> {
    if fills == [] then []
    else
      var front, last := Kept(fills[..|fills| - 1], end), fills[|fills| - 1];
      if last.time <= end then front + [last] else front
  }

  function Settled(s: Snapshot, end: int): Snapshot {
    map cid | cid in s && Kept(s[cid], end) != [] :: Kept(s[cid], end)
  }

  /** Settling works fill by fill, so order and multiplicity stay. */
  lemma {:induction false} KeptConcat(a: seq<Fill>, b: seq<Fill>, end: int)
    ensures Kept(a + b, end) == Kept(a, end) + Kept(b, end)
  {
    if b == [] {
      assert a + b == a;
    } else {
      assert (a + b)[..|a + b| - 1] == a + b[..|b| - 1];
      KeptConcat(a, b[..|b| - 1], end);
    }
  }

  lemma KeptOne(f: Fill, end: int)
    ensures Kept([f], end) == if f.time <= end then [f] else []
  {
    assert [f][..0] == [];
  }

  /** Exactly the fills up to the boundary are kept, each as often as it was there. */
  lemma {:induction false} KeptCounts(fills: seq<Fill>, end: int, f: Fill)
    ensures f in Kept(fills, end) <==> f in fills && f.time <= end
    ensures multiset(Kept(fills, end))[f] == if f.time <= end then multiset(fills)[f] else 0
  {
    if fills != [] {
      var front, last := fills[..|fills| - 1], fills[|fills| - 1];
      KeptCounts(front, end, f);
      assert fills == front + [last];
    }
  }

  /** What settling leaves of an order. */
  lemma SettledFills(s: Snapshot, end: int, cid: string)
    ensures FillsOf(Settled(s, end), cid) == Kept(FillsOf(s, cid), end)
  {
  }

  /** Exactly the fills up to the boundary are compared, and no order is listed empty. */
  lemma SettledHas(s: Snapshot, end: int, cid: string, f: Fill)
    ensures f in FillsOf(Settled(s, end), cid) <==> f in FillsOf(s, cid) && f.time <= end
    ensures cid in Settled(s, end) ==> Settled(s, end)[cid] != []
  {
    SettledFills(s, end, cid);
    KeptCounts(FillsOf(s, cid), end, f);
  }

  lemma LateIsDropped(a: seq<Fill>, late: Fill, b: seq<Fill>, end: int)
    requires late.time > end
    ensures Kept(a + [late] + b, end) == Kept(a + b, end)
  {
    KeptConcat(a + [late], b, end);
    KeptConcat(a, [late], end);
    KeptConcat(a, b, end);
    KeptOne(late, end);
  }

  /** A fill later than the boundary does not show, wherever the platform lists it. */
  lemma UnsettledIsIgnored(s: Snapshot, cid: string, fills: seq<Fill>, end: int)
    requires Kept(fills, end) == Kept(FillsOf(s, cid), end)
    ensures Settled(s[cid := fills], end) == Settled(s, end)
  {
  }

  // ---- Repair ----

  /** A corrected fill takes the correlation id of its stored order, if any. */
  function Stamped(f: Fill, orders: map<string, string>): Fill {
    if f.cid != "" && f.cid in orders then f.(correlation := orders[f.cid]) else f
  }

  function DeleteWindow(store: Store, cid: string, w: Window): Store {
    map id | id in store && !(store[id].cid == cid && w.Holds(store[id].time)) :: store[id]
  }

  function UpsertAll(store: Store, fills: seq<Fill>, orders: map<string, string>): Store {
    if fills == [] then store
    else
      var last := Stamped(fills[|fills| - 1], orders);
      UpsertAll(store, fills[..|fills| - 1], orders)[last.id := last]
  }

  function RepairOrder(store: Store, cid: string, s: Snapshot, w: Window, orders: map<string, string>): Store {
    UpsertAll(DeleteWindow(store, cid, w), FillsOf(s, cid), orders)
  }

  /** The correction loop, in the iteration order of `cids`. */
  function Repair(store: Store, cids: seq<string>, s: Snapshot, w: Window, orders: map<string, string>): Store {
    if cids == [] then store
    else RepairOrder(Repair(store, cids[..|cids| - 1], s, w, orders), cids[|cids| - 1], s, w, orders)
  }

  /** Every fill is filed under its own order, inside the window, once. */
  ghost predicate WellFiled(s: Snapshot, w: Window) {
    && (forall c, i :: c in s && 0 <= i < |s[c]| ==> s[c][i].cid == c && w.Holds(s[c][i].time))
    && (forall c, i, d, j :: c in s && 0 <= i < |s[c]| && d in s && 0 <= j < |s[d]| && s[c][i].id == s[d][j].id ==>
          c == d && i == j)
  }

  /** The snapshot files this fill id under one of the orders. */
  ghost predicate Claimed(id: string, cids: seq<string>, s: Snapshot) {
    exists c :: c in cids && id in Table(FillsOf(s, c))
  }

  /** What rewriting a set of orders means for one row: the snapshot's fills of
      those orders are there as filed, the window's other rows of those orders are
      gone, and nothing else changed. */
  ghost predicate RowRewritten(
    after: Store, id: string, store: Store, cids: seq<string>, s: Snapshot, w: Window, orders: map<string, string>)
  {
    && (forall c :: c in cids && id in Table(FillsOf(s, c)) ==>
          id in after && after[id] == Stamped(Table(FillsOf(s, c))[id], orders))
    && (!Claimed(id, cids, s) ==>
          (id in after <==> id in store && !(store[id].cid in cids && w.Holds(store[id].time)))
          && (id in after ==> after[id] == store[id]))
  }

  lemma {:induction false} UpsertAllRow(store: Store, fills: seq<Fill>, orders: map<string, string>, id: string)
    ensures var after := UpsertAll(store, fills, orders);
            if id in Table(fills) then id in after && after[id] == Stamped(Table(fills)[id], orders)
            else (id in after <==> id in store) && (id in after ==> after[id] == store[id])
  {
    if fills != [] { UpsertAllRow(store, fills[..|fills| - 1], orders, id); }
  }

  lemma OneFiling(s: Snapshot, w: Window, c: string, d: string, id: string)
    requires WellFiled(s, w) && id in Table(FillsOf(s, c)) && id in Table(FillsOf(s, d))
    ensures c == d
  {
    TableHas(FillsOf(s, c), id);
    TableHas(FillsOf(s, d), id);
    var i :| 0 <= i < |FillsOf(s, c)| && FillsOf(s, c)[i].id == id;
    var j :| 0 <= j < |FillsOf(s, d)| && FillsOf(s, d)[j].id == id;
    assert s[c][i].id == s[d][j].id;
  }

  lemma FiledUnder(s: Snapshot, w: Window, c: string, id: string)
    requires WellFiled(s, w) && id in Table(FillsOf(s, c))
    ensures Table(FillsOf(s, c))[id].cid == c && w.Holds(Table(FillsOf(s, c))[id].time)
  {
    TableHas(FillsOf(s, c), id);
  }

  lemma {:induction false} RepairRow(
    store: Store, cids: seq<string>, s: Snapshot, w: Window, orders: map<string, string>, id: string)
    requires WellFiled(s, w)
    ensures RowRewritten(Repair(store, cids, s, w, orders), id, store, cids, s, w, orders)
  {
    if cids != [] {
      var front, last := cids[..|cids| - 1], cids[|cids| - 1];
      assert cids == front + [last];
      var was := Repair(store, front, s, w, orders);
      RepairRow(store, front, s, w, orders, id);
      UpsertAllRow(DeleteWindow(was, last, w), FillsOf(s, last), orders, id);
      RowAfterOneMore(was, store, front, last, s, w, orders, id);
    }
  }

  lemma RowAfterOneMore(
    was: Store, store: Store, front: seq<string>, last: string, s: Snapshot, w: Window, orders: map<string, string>, id: string)
    requires WellFiled(s, w) && RowRewritten(was, id, store, front, s, w, orders)
    ensures RowRewritten(RepairOrder(was, last, s, w, orders), id, store, front + [last], s, w, orders)
  {
    var after, cids := RepairOrder(was, last, s, w, orders), front + [last];
    UpsertAllRow(DeleteWindow(was, last, w), FillsOf(s, last), orders, id);
    assert forall c :: c in cids <==> c in front || c == last;
    if id in Table(FillsOf(s, last)) {
      forall c | c in cids && id in Table(FillsOf(s, c)) ensures c == last { OneFiling(s, w, c, last, id); }
      assert last in cids;
    } else if Claimed(id, front, s) {
      var c :| c in front && id in Table(FillsOf(s, c));
      FiledUnder(s, w, c, id);
      assert c in cids;
      forall d | d in cids && id in Table(FillsOf(s, d)) ensures d == c { OneFiling(s, w, c, d, id); }
    } else {
      assert !Claimed(id, cids, s);
    }
  }

  /** The final store does not depend on the iteration order of the discrepant set. */
  lemma RepairIsOrderIndependent(
    store: Store, a: seq<string>, b: seq<string>, s: Snapshot, w: Window, orders: map<string, string>)
    requires WellFiled(s, w) && forall c :: c in a <==> c in b
    ensures Repair(store, a, s, w, orders) == Repair(store, b, s, w, orders)
  {
    var x, y := Repair(store, a, s, w, orders), Repair(store, b, s, w, orders);
    forall id ensures id in x <==> id in y
      ensures id in x && id in y ==> x[id] == y[id]
    {
      RepairRow(store, a, s, w, orders, id);
      RepairRow(store, b, s, w, orders, id);
      assert Claimed(id, a, s) <==> Claimed(id, b, s);
    }
  }

  /** A rewritten order's row is the snapshot's fill, under the correlation id of its
      stored order, or its own when the order is not stored. */
  lemma RewrittenRow(
    store: Store, cids: seq<string>, s: Snapshot, w: Window, orders: map<string, string>, cid: string, id: string)
    requires WellFiled(s, w) && cid in cids && cid != "" && id in Table(FillsOf(s, cid))
    ensures id in Repair(store, cids, s, w, orders)
    ensures var row, filed := Repair(store, cids, s, w, orders)[id], Table(FillsOf(s, cid))[id];
            && filed in FillsOf(s, cid) && SameFill(row, filed)
            && row.correlation == if cid in orders then orders[cid] else filed.correlation
  {
    RepairRow(store, cids, s, w, orders, id);
    FiledUnder(s, w, cid, id);
    TableHas(FillsOf(s, cid), id);
  }

  /** Rows outside the window and rows of other orders are left alone, unless the
      snapshot files their very id under a rewritten order. */
  lemma RepairIsSurgical(
    store: Store, cids: seq<string>, s: Snapshot, w: Window, orders: map<string, string>, id: string)
    requires WellFiled(s, w) && id in store && !Claimed(id, cids, s)
    requires !w.Holds(store[id].time) || store[id].cid !in cids
    ensures id in Repair(store, cids, s, w, orders) && Repair(store, cids, s, w, orders)[id] == store[id]
  {
    RepairRow(store, cids, s, w, orders, id);
  }

  lemma {:induction false} SumSame(a: Store, b: Store)
    requires a.Keys == b.Keys && forall k :: k in a ==> a[k].quantity == b[k].quantity
    ensures Sum(a) == Sum(b)
    decreases |a|
  {
    if a == map[] {
      assert b == map[];
    } else {
      var p := Pick(a);
      SumRemove(b, p);
      SumSame(a - {p}, b - {p});
    }
  }

  /** A rewritten order holds exactly the snapshot's fills in the window. */
  lemma RewrittenSlice(
    store: Store, cids: seq<string>, s: Snapshot, w: Window, orders: map<string, string>, cid: string)
    requires WellFiled(s, w) && cid in cids
    ensures Sum(Slice(Repair(store, cids, s, w, orders), cid, w)) == Total(FillsOf(s, cid))
  {
    var after, filed := Repair(store, cids, s, w, orders), Table(FillsOf(s, cid));
    var slice := Slice(after, cid, w);
    forall id ensures id in slice <==> id in filed
      ensures id in slice && id in filed ==> slice[id].quantity == filed[id].quantity
    {
      RepairRow(store, cids, s, w, orders, id);
      if id in filed {
        FiledUnder(s, w, cid, id);
      } else if Claimed(id, cids, s) {
        var c :| c in cids && id in Table(FillsOf(s, c));
        FiledUnder(s, w, c, id);
      }
    }
    SumSame(slice, filed);
    TableTotal(FillsOf(s, cid));
  }

  /** Another order keeps its window, minus the ids the snapshot files elsewhere. */
  lemma OtherSlice(
    store: Store, cids: seq<string>, s: Snapshot, w: Window, orders: map<string, string>, cid: string)
    requires WellFiled(s, w) && cid !in cids
    ensures var before, after := Slice(store, cid, w), Slice(Repair(store, cids, s, w, orders), cid, w);
            forall id :: id in after <==> id in before && !Claimed(id, cids, s)
    ensures var before, after := Slice(store, cid, w), Slice(Repair(store, cids, s, w, orders), cid, w);
            forall id :: id in after && id in before ==> after[id] == before[id]
  {
    var before, after := Slice(store, cid, w), Slice(Repair(store, cids, s, w, orders), cid, w);
    forall id ensures id in after <==> id in before && !Claimed(id, cids, s)
      ensures id in after && id in before ==> after[id] == before[id]
    {
      RepairRow(store, cids, s, w, orders, id);
      if Claimed(id, cids, s) {
        var c :| c in cids && id in Table(FillsOf(s, c));
        FiledUnder(s, w, c, id);
      }
    }
  }

  /** Some row of the order, in the window, carries an id that the snapshot files
      under one of the rewritten orders. */
  ghost predicate Contested(store: Store, cid: string, cids: seq<string>, s: Snapshot, w: Window) {
    exists id :: id in Slice(store, cid, w) && Claimed(id, cids, s)
  }

  lemma OtherTotal(
    store: Store, cids: seq<string>, s: Snapshot, w: Window, orders: map<string, string>, cid: string)
    requires WellFiled(s, w) && cid !in cids && forall id :: id in store ==> store[id].quantity > 0
    ensures (Sum(Slice(Repair(store, cids, s, w, orders), cid, w)) == Sum(Slice(store, cid, w))) <==>
            !Contested(store, cid, cids, s, w)
  {
    OtherSlice(store, cids, s, w, orders, cid);
    var before, after := Slice(store, cid, w), Slice(Repair(store, cids, s, w, orders), cid, w);
    SumOfPart(after, before);
    if id :| id in before && Claimed(id, cids, s) {
      assert id !in after && id in before;
    } else {
      assert forall id :: id in before ==> !Claimed(id, cids, s);
      assert after == before;
    }
  }

  /** After the repair of the discrepant set, an order is discrepant over the same
      window exactly when it was not, and the two sides disagree on the owner of
      one of its fills. So where they agree on owners the repair converges. */
  lemma {:induction false} RepairConverges(
    store: Store, cids: seq<string>, s: Snapshot, w: Window, orders: map<string, string>, cid: string)
    requires WellFiled(s, w) && forall id :: id in store ==> store[id].quantity > 0
    requires forall c :: c in cids <==> Discrepant(store, s, w, c)
    ensures Discrepant(Repair(store, cids, s, w, orders), s, w, cid) <==>
            cid !in cids && Contested(store, cid, cids, s, w)
  {
    if cid in cids {
      RewrittenSlice(store, cids, s, w, orders, cid);
    } else {
      OtherTotal(store, cids, s, w, orders, cid);
    }
  }

  // ---- Passes and the watermark ----

  datatype State = State(watermark: Option<int>, store: Store)

  /** A pass aborts when a fetch fails. Otherwise it has the fetched snapshot, the
      order in which it visited the discrepant orders, and whether positions,
      balances and open orders all matched. Live fills are stored between passes. */
  datatype Op =
    | Aborted(now: int)
    | Compared(now: int, fetched: Snapshot, cids: seq<string>, othersClean: bool, orders: map<string, string>)
    | Streamed(fill: Fill)

  /** Forward-only bootstrap: without a watermark the window starts now. */
  function WindowAt(watermark: Option<int>, now: int, lag: nat): Window {
    Window(if watermark.Some? then watermark.value else now, now - lag)
  }

  predicate IsClean(op: Op) {
    op.Compared? && op.othersClean && op.cids == []
  }

  function Pass(s: State, op: Op, lag: nat): State
    requires op.Compared?
  {
    var w := WindowAt(s.watermark, op.now, lag);
    State(if IsClean(op) then Some(w.end) else s.watermark,
      Repair(s.store, op.cids, Settled(op.fetched, w.end), w, op.orders))
  }

  function Step(s: State, op: Op, lag: nat): State {
    match op
    case Aborted(_) => s
    case Compared(_, _, _, _, _) => Pass(s, op, lag)
    case Streamed(f) => s.(store := s.store[f.id := f])
  }

  function Run(s: State, ops: seq<Op>, lag: nat): State {
    if ops == [] then s else Step(Run(s, ops[..|ops| - 1], lag), ops[|ops| - 1], lag)
  }

  /** The windows compared by the clean passes, in order. */
  function CleanWindows(s: State, ops: seq<Op>, lag: nat): seq<Window> {
    if ops == [] then []
    else
      var front, last := ops[..|ops| - 1], ops[|ops| - 1];
      CleanWindows(s, front, lag) + (if IsClean(last) then [WindowAt(Run(s, front, lag).watermark, last.now, lag)] else [])
  }

  /** The clock of the latest pass. */
  function Clock(ops: seq<Op>): Option<int> {
    if ops == [] then None
    else if ops[|ops| - 1].Streamed? then Clock(ops[..|ops| - 1])
    else Some(ops[|ops| - 1].now)
  }

  predicate Monotone(ops: seq<Op>) {
    ops == []
    || (Monotone(ops[..|ops| - 1])
        && (ops[|ops| - 1].Streamed? || Clock(ops[..|ops| - 1]).None? || Clock(ops[..|ops| - 1]).value <= ops[|ops| - 1].now))
  }

  /** Clean windows join end to start, and the watermark is the last end. */
  ghost predicate Chained(ws: seq<Window>, watermark: Option<int>, lag: nat) {
    && watermark == (if ws == [] then None else Some(ws[|ws| - 1].end))
    && (forall i :: 0 < i < |ws| ==> ws[i].start == ws[i - 1].end && ws[i].start <= ws[i].end)
    && (ws != [] ==> ws[0].start == ws[0].end + lag)
  }

  lemma {:induction false} WindowsChain(store: Store, ops: seq<Op>, lag: nat)
    requires Monotone(ops)
    ensures Chained(CleanWindows(State(None, store), ops, lag), Run(State(None, store), ops, lag).watermark, lag)
    ensures var watermark := Run(State(None, store), ops, lag).watermark;
            watermark.Some? ==> Clock(ops).Some? && watermark.value <= Clock(ops).value - lag
  {
    if ops != [] {
      var front, last, s := ops[..|ops| - 1], ops[|ops| - 1], State(None, store);
      WindowsChain(store, front, lag);
      if IsClean(last) {
        var ws := CleanWindows(s, front, lag);
        ChainedSnoc(ws, Run(s, front, lag).watermark, lag, last.now);
        assert CleanWindows(s, ops, lag) == ws + [WindowAt(Run(s, front, lag).watermark, last.now, lag)];
      } else {
        assert CleanWindows(s, ops, lag) == CleanWindows(s, front, lag);
      }
    }
  }

  lemma ChainedSnoc(ws: seq<Window>, watermark: Option<int>, lag: nat, now: int)
    requires Chained(ws, watermark, lag) && (watermark.Some? ==> watermark.value <= now - lag)
    ensures Chained(ws + [WindowAt(watermark, now, lag)], Some(now - lag), lag)
  {
  }

  ghost predicate Covered(ws: seq<Window>, t: int) {
    exists i :: 0 <= i < |ws| && ws[i].Holds(t)
  }

  lemma {:induction false} ChainCovers(ws: seq<Window>, lag: nat, t: int)
    requires ws != [] && Chained(ws, Some(ws[|ws| - 1].end), lag)
    requires ws[0].end <= t <= ws[|ws| - 1].end
    ensures Covered(ws, t) <==> t > ws[0].end || lag == 0 || |ws| >= 2
    ensures t > ws[0].end ==> |ws| >= 2
    ensures ws[0].end <= ws[|ws| - 1].end
  {
    var n := |ws| - 1;
    if n == 0 {
      assert Covered(ws, t) <==> ws[0].Holds(t);
    } else if t >= ws[n].start {
      assert ws[n].Holds(t);
    } else {
      var front := ws[..n];
      assert Chained(front, Some(front[n - 1].end), lag);
      ChainCovers(front, lag, t);
      if i :| 0 <= i < |front| && front[i].Holds(t) { assert ws[i].Holds(t); }
    }
  }

  /** With a non-decreasing clock and a fixed lag the watermark never moves back. */
  lemma WatermarkNeverMovesBack(store: Store, ops: seq<Op>, op: Op, lag: nat)
    requires Monotone(ops + [op])
    ensures var before, after := Run(State(None, store), ops, lag).watermark, Run(State(None, store), ops + [op], lag).watermark;
            before.Some? ==> after.Some? && before.value <= after.value
  {
    assert (ops + [op])[..|ops|] == ops;
    WindowsChain(store, ops, lag);
  }

  /** Over any clean, dirty and aborted passes, every instant from the first
      persisted watermark to the current one lies inside the window of a clean
      pass, except the first instant itself while a lag leaves it to the second
      clean pass. */
  lemma EveryInstantIsCompared(store: Store, ops: seq<Op>, lag: nat, t: int)
    requires Monotone(ops)
    requires var s := State(None, store);
             var ws := CleanWindows(s, ops, lag);
             ws != [] && ws[0].end <= t <= ws[|ws| - 1].end
    ensures var ws := CleanWindows(State(None, store), ops, lag);
            && Run(State(None, store), ops, lag).watermark == Some(ws[|ws| - 1].end)
            && (Covered(ws, t) <==> t > ws[0].end || lag == 0 || |ws| >= 2)
  {
    WindowsChain(store, ops, lag);
    ChainCovers(CleanWindows(State(None, store), ops, lag), lag, t);
  }

  /** Every pass visited exactly the orders on which the two sides disagreed. */
  ghost predicate Detected(s: State, ops: seq<Op>, lag: nat) {
    ops == []
    || (Detected(s, ops[..|ops| - 1], lag) && DetectedAt(Run(s, ops[..|ops| - 1], lag), ops[|ops| - 1], lag))
  }

  ghost predicate DetectedAt(s: State, op: Op, lag: nat) {
    op.Compared? ==>
      var w := WindowAt(s.watermark, op.now, lag);
      forall c :: c in op.cids <==> Discrepant(s.store, Settled(op.fetched, w.end), w, c)
  }

  lemma {:induction false} PassDetected(s: State, ops: seq<Op>, n: nat, lag: nat)
    requires Detected(s, ops, lag) && n < |ops|
    ensures DetectedAt(Run(s, ops[..n], lag), ops[n], lag)
  {
    if n < |ops| - 1 {
      PassDetected(s, ops[..|ops| - 1], n, lag);
      assert ops[..|ops| - 1][..n] == ops[..n];
    }
  }

  /** The pass was clean, its window holds the instant, and in that window the store
      and the platform agreed on the total of every order. */
  ghost predicate AgreedAt(s: State, op: Op, lag: nat, t: int) {
    && IsClean(op)
    && var w := WindowAt(s.watermark, op.now, lag);
       w.Holds(t) && forall c :: Sum(Slice(s.store, c, w)) == Total(FillsOf(Settled(op.fetched, w.end), c))
  }

  lemma {:induction false} CleanWindowPass(s: State, ops: seq<Op>, lag: nat, i: nat) returns (n: nat)
    requires i < |CleanWindows(s, ops, lag)|
    ensures n < |ops| && IsClean(ops[n])
    ensures CleanWindows(s, ops, lag)[i] == WindowAt(Run(s, ops[..n], lag).watermark, ops[n].now, lag)
  {
    var front := ops[..|ops| - 1];
    if i < |CleanWindows(s, front, lag)| {
      n := CleanWindowPass(s, front, lag, i);
      assert front[..n] == ops[..n];
    } else {
      n := |ops| - 1;
    }
  }

  /** So every later instant up to the watermark lies in the window of a clean pass
      at which both sides agreed on every order. */
  lemma EveryInstantAgreed(store: Store, ops: seq<Op>, lag: nat, t: int) returns (n: nat)
    requires Monotone(ops) && Detected(State(None, store), ops, lag)
    requires var ws := CleanWindows(State(None, store), ops, lag);
             ws != [] && ws[0].end < t <= ws[|ws| - 1].end
    ensures n < |ops| && AgreedAt(Run(State(None, store), ops[..n], lag), ops[n], lag, t)
  {
    var s := State(None, store);
    EveryInstantIsCompared(store, ops, lag, t);
    var ws := CleanWindows(s, ops, lag);
    assert Covered(ws, t);
    var i :| 0 <= i < |ws| && ws[i].Holds(t);
    n := CleanWindowPass(s, ops, lag, i);
    PassDetected(s, ops, n, lag);
    var at := Run(s, ops[..n], lag);
    var w := WindowAt(at.watermark, ops[n].now, lag);
    forall c ensures Sum(Slice(at.store, c, w)) == Total(FillsOf(Settled(ops[n].fetched, w.end), c)) {
      assert c !in ops[n].cids;
    }
  }

  // ---- Fills that settle later, and passes that agree ----

  /** A live fill is stored under its id between passes, which leaves the watermark. */
  lemma StreamedIsStored(s: State, f: Fill, lag: nat, id: string)
    ensures var t := Step(s, Streamed(f), lag);
            && t.watermark == s.watermark && f.id in t.store && t.store[f.id] == f
            && (id != f.id ==> (id in t.store <==> id in s.store) && (id in s.store ==> t.store[id] == s.store[id]))
  {
  }

  lemma SameSettledSamePass(s: State, op: Op, fetched: Snapshot, lag: nat)
    requires op.Compared? && Settled(fetched, op.now - lag) == Settled(op.fetched, op.now - lag)
    ensures Pass(s, op.(fetched := fetched), lag) == Pass(s, op, lag)
  {
  }

  lemma SameSettledSameFindings(s: State, op: Op, fetched: Snapshot, lag: nat)
    requires op.Compared? && Settled(fetched, op.now - lag) == Settled(op.fetched, op.now - lag)
    ensures DetectedAt(s, op.(fetched := fetched), lag) <==> DetectedAt(s, op, lag)
  {
  }

  /** So a fill later than `now - lag` changes neither what a pass finds nor what it
      leaves behind. */
  lemma LateFillsWait(s: State, op: Op, lag: nat, cid: string, a: seq<Fill>, late: Fill, b: seq<Fill>)
    requires op.Compared? && FillsOf(op.fetched, cid) == a + b && late.time > op.now - lag
    ensures var more := op.(fetched := op.fetched[cid := a + [late] + b]);
            (DetectedAt(s, more, lag) <==> DetectedAt(s, op, lag)) && Pass(s, more, lag) == Pass(s, op, lag)
  {
    var fetched := op.fetched[cid := a + [late] + b];
    LateIsDropped(a, late, b, op.now - lag);
    UnsettledIsIgnored(op.fetched, cid, a + [late] + b, op.now - lag);
    SameSettledSamePass(s, op, fetched, lag);
    SameSettledSameFindings(s, op, fetched, lag);
  }

  /** Every stored fill of the order in the window is listed by the platform. */
  ghost predicate Listed(store: Store, fills: seq<Fill>, cid: string, w: Window) {
    forall id :: id in Slice(store, cid, w) ==> exists i :: 0 <= i < |fills| && fills[i].id == id && SameFill(fills[i], store[id])
  }

  /** Every listed fill of the order in the window is stored. */
  ghost predicate Stored(store: Store, fills: seq<Fill>, cid: string, w: Window) {
    forall i :: 0 <= i < |fills| && w.Holds(fills[i].time) ==> fills[i].id in Slice(store, cid, w)
  }

  /** What the platform lists for an order, asked for fills since the window's start. */
  ghost predicate Fetched(fills: seq<Fill>, w: Window) {
    UniqueIds(fills) && forall i :: 0 <= i < |fills| ==> fills[i].time >= w.start && fills[i].quantity > 0
  }

  lemma {:induction false} KeptUnique(fills: seq<Fill>, end: int)
    requires UniqueIds(fills)
    ensures UniqueIds(Kept(fills, end))
  {
    if fills != [] {
      var front, last := fills[..|fills| - 1], fills[|fills| - 1];
      KeptUnique(front, end);
      forall f | f in Kept(front, end) ensures f.id != last.id { KeptCounts(front, end, f); }
    }
  }

  lemma ListedIsKept(store: Store, fills: seq<Fill>, cid: string, w: Window, id: string)
    requires Listed(store, fills, cid, w) && UniqueIds(fills) && id in Slice(store, cid, w)
    ensures id in Table(Kept(fills, w.end)) && Table(Kept(fills, w.end))[id].quantity == Slice(store, cid, w)[id].quantity
  {
    var kept := Kept(fills, w.end);
    var i :| 0 <= i < |fills| && fills[i].id == id && SameFill(fills[i], store[id]);
    KeptCounts(fills, w.end, fills[i]);
    var j :| 0 <= j < |kept| && kept[j] == fills[i];
    TableHas(kept, id);
    KeptCounts(fills, w.end, Table(kept)[id]);
  }

  lemma KeptIsStored(store: Store, fills: seq<Fill>, cid: string, w: Window, id: string)
    requires Stored(store, fills, cid, w) && Fetched(fills, w) && id in Table(Kept(fills, w.end))
    ensures id in Slice(store, cid, w)
  {
    TableHas(Kept(fills, w.end), id);
    KeptCounts(fills, w.end, Table(Kept(fills, w.end))[id]);
  }

  lemma KeptHasId(fills: seq<Fill>, end: int, i: nat)
    requires i < |fills| && fills[i].time <= end
    ensures fills[i].id in Table(Kept(fills, end))
  {
    KeptCounts(fills, end, fills[i]);
    var j :| 0 <= j < |Kept(fills, end)| && Kept(fills, end)[j] == fills[i];
    TableHas(Kept(fills, end), fills[i].id);
  }

  /** The rows of a table with these ids. */
  function OfIds(table: Store, ids: set<string>): Store {
    map id | id in table && id in ids :: table[id]
  }

  lemma ListedSum(store: Store, fills: seq<Fill>, cid: string, w: Window)
    requires Listed(store, fills, cid, w) && UniqueIds(fills)
    ensures Sum(Slice(store, cid, w)) == Sum(OfIds(Table(Kept(fills, w.end)), Slice(store, cid, w).Keys))
  {
    var slice, table := Slice(store, cid, w), Table(Kept(fills, w.end));
    forall id | id in slice ensures id in table && table[id].quantity == slice[id].quantity {
      ListedIsKept(store, fills, cid, w, id);
    }
    SumSame(slice, OfIds(table, slice.Keys));
  }

  lemma KeptIsPositive(fills: seq<Fill>, w: Window, id: string)
    requires Fetched(fills, w) && id in Table(Kept(fills, w.end))
    ensures Table(Kept(fills, w.end))[id].quantity > 0
  {
    TableHas(Kept(fills, w.end), id);
    KeptCounts(fills, w.end, Table(Kept(fills, w.end))[id]);
  }

  lemma WholeIffStored(store: Store, fills: seq<Fill>, cid: string, w: Window)
    requires Fetched(fills, w)
    ensures var table := Table(Kept(fills, w.end));
            OfIds(table, Slice(store, cid, w).Keys) == table <==> Stored(store, fills, cid, w)
  {
    var table, slice := Table(Kept(fills, w.end)), Slice(store, cid, w);
    if Stored(store, fills, cid, w) {
      forall id | id in table ensures id in slice { KeptIsStored(store, fills, cid, w, id); }
    } else {
      var i :| 0 <= i < |fills| && w.Holds(fills[i].time) && fills[i].id !in slice;
      KeptHasId(fills, w.end, i);
      assert fills[i].id !in OfIds(table, slice.Keys);
    }
  }

  /** Where the platform lists every stored fill, the totals agree exactly when the
      store holds every listed one. */
  lemma AgreeIffStored(store: Store, fetched: Snapshot, w: Window, cid: string)
    requires Listed(store, FillsOf(fetched, cid), cid, w) && Fetched(FillsOf(fetched, cid), w)
    ensures Discrepant(store, Settled(fetched, w.end), w, cid) <==> !Stored(store, FillsOf(fetched, cid), cid, w)
  {
    var fills := FillsOf(fetched, cid);
    var table := Table(Kept(fills, w.end));
    SettledFills(fetched, w.end, cid);
    KeptUnique(fills, w.end);
    TableTotal(Kept(fills, w.end));
    ListedSum(store, fills, cid, w);
    forall id | id in table ensures table[id].quantity > 0 { KeptIsPositive(fills, w, id); }
    SumOfPart(OfIds(table, Slice(store, cid, w).Keys), table);
    WholeIffStored(store, fills, cid, w);
  }

  /** So a pass that finds nothing but what the platform lists rewrites exactly the
      orders that miss a settled fill, and one that misses none touches no row and
      moves the watermark unless something else was amiss. */
  lemma PassFindsMissingFills(s: State, op: Op, lag: nat)
    requires op.Compared? && DetectedAt(s, op, lag)
    requires var w := WindowAt(s.watermark, op.now, lag);
             forall c :: Listed(s.store, FillsOf(op.fetched, c), c, w) && Fetched(FillsOf(op.fetched, c), w)
    ensures var w := WindowAt(s.watermark, op.now, lag);
            && (forall c :: c in op.cids <==> !Stored(s.store, FillsOf(op.fetched, c), c, w))
            && ((forall c :: Stored(s.store, FillsOf(op.fetched, c), c, w)) ==>
                  Step(s, op, lag) == if op.othersClean then s.(watermark := Some(op.now - lag)) else s)
  {
    var w := WindowAt(s.watermark, op.now, lag);
    forall c ensures c in op.cids <==> !Stored(s.store, FillsOf(op.fetched, c), c, w) {
      AgreeIffStored(s.store, op.fetched, w, c);
    }
    assert |op.cids| > 0 ==> op.cids[0] in op.cids;
  }

  // ---- The engine's pass, in place ----

  method GroupRows(rows: seq<Fill>) returns (local: Snapshot)
    ensures local == Grouped(rows)
  {
    local := map[];
    for i := 0 to |rows|
      invariant local == Grouped(rows[..i])
    {
      assert rows[..i + 1][..i] == rows[..i];
      local := local[rows[i].cid := FillsOf(local, rows[i].cid) + [rows[i]]];
    }
    assert rows[..|rows|] == rows;
  }

  method SettleSnapshot(fetched: Snapshot, end: int) returns (settled: Snapshot)
    ensures settled == Settled(fetched, end)
  {
    settled := map[];
    var todo := fetched.Keys;
    while todo != {}
      invariant todo <= fetched.Keys
      invariant forall c :: c in settled <==> c in fetched && c !in todo && Kept(fetched[c], end) != []
      invariant forall c :: c in settled ==> settled[c] == Kept(fetched[c], end)
    {
      var c :| c in todo;
      todo := todo - {c};
      var kept := Kept(fetched[c], end);
      if kept != [] { settled := settled[c := kept]; }
    }
  }

  /** Detection over the query's rows finds the orders that disagree. */
  method DetectFills(ghost store: Store, rows: seq<Fill>, s: Snapshot, w: Window) returns (cids: seq<string>)
    requires IsQueryOf(rows, store, w)
    ensures forall c :: c in cids <==> Discrepant(store, s, w, c)
    ensures forall i, j :: 0 <= i < j < |cids| ==> cids[i] != cids[j]
  {
    var local := GroupRows(rows);
    forall c ensures Total(FillsOf(local, c)) == Sum(Slice(store, c, w)) { GroupedTotals(rows, store, w, c); }
    cids := FillDiscrepantOrderIds(local, s);
  }

  class FillReconciler {
    var watermark: Option<int>
    var store: Store
    const lag: nat

    ghost function Model(): State
      reads this
    {
      State(watermark, store)
    }

    constructor (settleLag: nat)
      ensures lag == settleLag && Model() == State(None, map[])
    {
      lag, watermark, store := settleLag, None, map[];
    }

    /** Deletes the order's window, then upserts the snapshot's fills of it. */
    method RewriteOrder(cid: string, s: Snapshot, w: Window, orders: map<string, string>)
      modifies this`store
      ensures store == RepairOrder(old(store), cid, s, w, orders)
    {
      store := DeleteWindow(store, cid, w);
      ghost var base := store;
      var fills := FillsOf(s, cid);
      for i := 0 to |fills|
        invariant store == UpsertAll(base, fills[..i], orders)
      {
        assert fills[..i + 1][..i] == fills[..i];
        var stamped := Stamped(fills[i], orders);
        store := store[stamped.id := stamped];
      }
      assert fills[..|fills|] == fills;
    }

    /** The correction loop over the discrepant orders. */
    method CorrectFills(cids: seq<string>, s: Snapshot, w: Window, orders: map<string, string>)
      modifies this`store
      ensures store == Repair(old(store), cids, s, w, orders)
    {
      for i := 0 to |cids|
        invariant store == Repair(old(store), cids[..i], s, w, orders)
      {
        assert cids[..i + 1][..i] == cids[..i];
        RewriteOrder(cids[i], s, w, orders);
      }
      assert cids[..|cids|] == cids;
    }

    /** One pass over a fetched snapshot; `rows` is what the window's query returned.
        It rewrites exactly the orders on which the two sides disagreed. */
    method ReconcileFills(now: int, rows: seq<Fill>, fetched: Snapshot, othersClean: bool, orders: map<string, string>)
      returns (cids: seq<string>)
      requires IsQueryOf(rows, store, WindowAt(watermark, now, lag))
      modifies this
      ensures forall c :: c in cids <==>
                Discrepant(old(store), Settled(fetched, now - lag), WindowAt(old(watermark), now, lag), c)
      ensures forall i, j :: 0 <= i < j < |cids| ==> cids[i] != cids[j]
      ensures Model() == Step(old(Model()), Compared(now, fetched, cids, othersClean, orders), lag)
    {
      var w := WindowAt(watermark, now, lag);
      var settled := SettleSnapshot(fetched, w.end);
      cids := DetectFills(store, rows, settled, w);
      CorrectFills(cids, settled, w, orders);
      if othersClean && cids == [] { watermark := Some(w.end); }
    }

    method PersistFill(f: Fill)
      modifies this`store
      ensures Model() == Step(old(Model()), Streamed(f), lag)
    {
      store := store[f.id := f];
    }
  }
}
