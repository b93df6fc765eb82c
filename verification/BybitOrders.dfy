/** Bybit order stream bookkeeping: a live set and a bounded set of finished orders
    stand in for the unbounded history of every order. */
module BybitOrders {
  import opened Common
  import opened RecencyQueue

  const MAX_TRACKED_FINAL_ORDER_IDS: nat := 10000

  /** One entry of an order message: a native protection child, one that cannot be
      translated, or an order with its platform id and status. */
  datatype Entry = Protection | Malformed | Order(id: string, status: OrderStatus)

  /** A published event with the status of the entry that caused it (a cancel event
      does not carry the status; it is kept here to tell finished orders). */
  datatype Event =
    | Placed(id: string, status: OrderStatus)
    | Changed(id: string, status: OrderStatus)
    | Cancelled(id: string, status: OrderStatus)

  /** The entry reaches the bookkeeping. */
  predicate Accepted(e: Entry) {
    e.Order? && e.id != ""
  }

  /** The event for a status change of an order that was seen live. */
  function Progress(e: Entry): Event
    requires e.Order?
  {
    if e.status.IsTerminal() then Event.Cancelled(e.id, e.status) else Changed(e.id, e.status)
  }

  // ---- Unbounded history ----

  /** The status an order last published. */
  function LastStatus(events: seq<Event>, id: string): Option<OrderStatus> {
    if events == [] then None
    else if events[|events| - 1].id == id then Some(events[|events| - 1].status)
    else LastStatus(events[..|events| - 1], id)
  }

  predicate Finished(events: seq<Event>, id: string) {
    LastStatus(events, id).Some? && LastStatus(events, id).value.IsFinal()
  }

  /** Classification with the full history: a first sighting is a placement, a
      finished order is silent, anything else is a change. */
  function Remembering(events: seq<Event>, e: Entry): seq<Event> {
    if !Accepted(e) || Finished(events, e.id) then events
    else if LastStatus(events, e.id).None? then events + [Placed(e.id, e.status)]
    else events + [Progress(e)]
  }

  function History(entries: seq<Entry>): seq<Event> {
    if entries == [] then [] else Remembering(History(entries[..|entries| - 1]), entries[|entries| - 1])
  }

  // ---- The adapter ----

  datatype State = State(open: set<string>, finals: seq<string>, events: seq<Event>)

  const EMPTY := State({}, [], [])

  function Retired(s: State, id: string): State {
    s.(open := s.open - {id}, finals := Touch(s.finals, id, MAX_TRACKED_FINAL_ORDER_IDS))
  }

  function Publish(s: State, v: Event): State {
    s.(events := s.events + [v])
  }

  function Step(s: State, e: Entry): State {
    if !Accepted(e) || e.id in s.finals then s
    else if e.id in s.open then
      var t := Publish(s, Progress(e));
      if e.status.IsFinal() then Retired(t, e.id) else t
    else
      var t := Publish(s, Placed(e.id, e.status));
      if e.status.IsFinal() then Retired(t, e.id) else t.(open := t.open + {e.id})
  }

  function Run(entries: seq<Entry>): State {
    if entries == [] then EMPTY else Step(Run(entries[..|entries| - 1]), entries[|entries| - 1])
  }

  /** The published orders, each with whether its event was final. */
  function Log(events: seq<Event>): (r: seq<(string, bool)>)
    ensures |r| == |events|
    ensures forall i :: 0 <= i < |r| ==> r[i] == (events[i].id, events[i].status.IsFinal())
  {
    seq(|events|, i requires 0 <= i < |events| => (events[i].id, events[i].status.IsFinal()))
  }

  /** The orders that finished, in order of their final events. */
  function Finals(events: seq<Event>): seq<string> {
    FinalIds(Log(events))
  }

  // ---- What always holds ----

  ghost predicate LiveIffUnfinished(open: set<string>, events: seq<Event>) {
    forall id :: id in open <==> LastStatus(events, id).Some? && !Finished(events, id)
  }

  ghost predicate AllFinished(finals: seq<string>, events: seq<Event>) {
    forall id :: id in finals ==> Finished(events, id)
  }

  ghost predicate Valid(s: State) {
    && s.finals == Window(Finals(s.events), MAX_TRACKED_FINAL_ORDER_IDS)
    && LiveIffUnfinished(s.open, s.events)
    && AllFinished(s.finals, s.events)
    && Unfinished(Log(s.events), MAX_TRACKED_FINAL_ORDER_IDS)
  }

  lemma LastStatusSnoc(events: seq<Event>, v: Event, id: string)
    ensures LastStatus(events + [v], id) == if v.id == id then Some(v.status) else LastStatus(events, id)
  {
    assert (events + [v])[..|events|] == events;
  }

  lemma FinalsSnoc(events: seq<Event>, v: Event)
    ensures Log(events + [v]) == Log(events) + [(v.id, v.status.IsFinal())]
    ensures Finals(events + [v]) == if v.status.IsFinal() then Finals(events) + [v.id] else Finals(events)
  {
    assert Log(events + [v]) == Log(events) + [(v.id, v.status.IsFinal())];
    FinalIdsSnoc(Log(events), (v.id, v.status.IsFinal()));
  }

  /** Publishing an event of an order that is not remembered as finished, and
      filing the order by the event's status. */
  function Filed(s: State, v: Event): State {
    var t := Publish(s, v);
    if v.status.IsFinal() then Retired(t, v.id) else t.(open := t.open + {v.id})
  }

  lemma StepFiles(s: State, e: Entry)
    requires Accepted(e) && e.id !in s.finals
    ensures Step(s, e) == Filed(s, if e.id in s.open then Progress(e) else Placed(e.id, e.status))
  {
    assert e.id in s.open ==> s.open + {e.id} == s.open;
  }

  lemma LiveSnoc(open: set<string>, events: seq<Event>, v: Event)
    requires LiveIffUnfinished(open, events)
    ensures LiveIffUnfinished(if v.status.IsFinal() then open - {v.id} else open + {v.id}, events + [v])
  {
    forall id ensures LastStatus(events + [v], id) == if v.id == id then Some(v.status) else LastStatus(events, id) {
      LastStatusSnoc(events, v, id);
    }
  }

  lemma FinishedSnoc(finals: seq<string>, events: seq<Event>, v: Event)
    requires AllFinished(finals, events) && Distinct(finals) && v.id !in finals
    ensures AllFinished(
              if v.status.IsFinal() then Touch(finals, v.id, MAX_TRACKED_FINAL_ORDER_IDS) else finals, events + [v])
  {
    TouchKeepsShape(finals, v.id, MAX_TRACKED_FINAL_ORDER_IDS);
    forall id | id in finals + [v.id] ensures id in finals ==> Finished(events + [v], id) {
      LastStatusSnoc(events, v, id);
    }
    LastStatusSnoc(events, v, v.id);
  }

  lemma FiledValid(s: State, v: Event)
    requires Valid(s) && v.id !in s.finals
    ensures Valid(Filed(s, v))
  {
    FinalsSnoc(s.events, v);
    UnfinishedSnoc(Log(s.events), (v.id, v.status.IsFinal()), MAX_TRACKED_FINAL_ORDER_IDS);
    LiveSnoc(s.open, s.events, v);
    WindowShape(Finals(s.events), MAX_TRACKED_FINAL_ORDER_IDS);
    FinishedSnoc(s.finals, s.events, v);
    WindowSnoc(Finals(s.events), v.id, MAX_TRACKED_FINAL_ORDER_IDS);
  }

  lemma {:induction false} RunValid(entries: seq<Entry>)
    ensures Valid(Run(entries))
  {
    if entries != [] {
      var s, e := Run(entries[..|entries| - 1]), entries[|entries| - 1];
      RunValid(entries[..|entries| - 1]);
      if Accepted(e) && e.id !in s.finals {
        StepFiles(s, e);
        FiledValid(s, if e.id in s.open then Progress(e) else Placed(e.id, e.status));
      }
    }
  }

  /** Whatever was evicted: the two sets are disjoint, the finished one is bounded,
      and an order is live exactly when its last published status is not final. */
  lemma {:induction false} BookkeepingInvariant(entries: seq<Entry>, id: string)
    ensures var s := Run(entries);
            && |s.finals| <= MAX_TRACKED_FINAL_ORDER_IDS && Distinct(s.finals)
            && !(id in s.open && id in s.finals)
            && (id in s.open <==> LastStatus(s.events, id).Some? && !Finished(s.events, id))
  {
    RunValid(entries);
    WindowShape(Finals(Run(entries).events), MAX_TRACKED_FINAL_ORDER_IDS);
  }

  /** After an order's final event nothing follows for it, not even a second
      placement, until at least 10000 other orders finished. */
  lemma NothingFollows(entries: seq<Entry>, i: nat, j: nat)
    requires i < j < |Run(entries).events| && Run(entries).events[i].status.IsFinal()
    requires Run(entries).events[i].id == Run(entries).events[j].id
    ensures var events := Run(entries).events;
            |Elems(FinalIds(Log(events)[i + 1..j])) - {events[i].id}| >= MAX_TRACKED_FINAL_ORDER_IDS
  {
    RunValid(entries);
    NothingFollowsFinal(Log(Run(entries).events), i, j, MAX_TRACKED_FINAL_ORDER_IDS);
  }

  // ---- Refinement of the unbounded history ----

  /** One entry is classified as the full history would, exactly unless it reports
      a finished order that was evicted. */
  lemma {:induction false} ClassifiedAsRememberedIff(entries: seq<Entry>, e: Entry)
    ensures Step(Run(entries), e).events == Remembering(Run(entries).events, e) <==>
            !(Accepted(e) && Finished(Run(entries).events, e.id) && e.id !in Run(entries).finals)
  {
    RunValid(entries);
  }

  lemma {:induction false} DistinctWindow(log: seq<string>, cap: nat)
    requires Distinct(log) && |log| <= cap
    ensures Window(log, cap) == log
  {
    if log != [] {
      var n := |log| - 1;
      DistinctWindow(log[..n], cap);
      assert log[n] !in log[..n];
      assert log == log[..n] + [log[n]];
    }
  }

  lemma {:induction false} FinishedIsListed(events: seq<Event>, id: string)
    requires Finished(events, id)
    ensures id in Finals(events)
  {
    var front, last := events[..|events| - 1], events[|events| - 1];
    assert events == front + [last];
    FinalsSnoc(front, last);
    if last.id != id { FinishedIsListed(front, id); }
  }

  /** In the unbounded history every order finishes at most once. */
  lemma {:induction false} HistoryFinishesOnce(entries: seq<Entry>)
    ensures Distinct(Finals(History(entries)))
    ensures forall id :: id in Finals(History(entries)) ==> Finished(History(entries), id)
  {
    if entries != [] {
      var events, e := History(entries[..|entries| - 1]), entries[|entries| - 1];
      HistoryFinishesOnce(entries[..|entries| - 1]);
      if Accepted(e) && !Finished(events, e.id) {
        var v := if LastStatus(events, e.id).None? then Placed(e.id, e.status) else Progress(e);
        FinalsSnoc(events, v);
        forall id ensures LastStatus(events + [v], id) == if v.id == id then Some(v.status) else LastStatus(events, id) {
          LastStatusSnoc(events, v, id);
        }
      }
    }
  }

  lemma HistoryGrows(entries: seq<Entry>)
    requires entries != []
    ensures |Finals(History(entries[..|entries| - 1]))| <= |Finals(History(entries))|
  {
    var events, e := History(entries[..|entries| - 1]), entries[|entries| - 1];
    if Accepted(e) && !Finished(events, e.id) {
      FinalsSnoc(events, if LastStatus(events, e.id).None? then Placed(e.id, e.status) else Progress(e));
    }
  }

  /** While at most 10000 orders finished, so that none was evicted, the adapter
      publishes exactly what the unbounded history would. */
  lemma {:induction false} BoundedRefinesUnbounded(entries: seq<Entry>)
    requires |Finals(History(entries))| <= MAX_TRACKED_FINAL_ORDER_IDS
    ensures Run(entries).events == History(entries)
    ensures Run(entries).finals == Finals(History(entries))
  {
    if entries != [] {
      var front, e := entries[..|entries| - 1], entries[|entries| - 1];
      HistoryGrows(entries);
      BoundedRefinesUnbounded(front);
      if Accepted(e) && Finished(History(front), e.id) { FinishedIsListed(History(front), e.id); }
      ClassifiedAsRememberedIff(front, e);
    }
    RunValid(entries);
    HistoryFinishesOnce(entries);
    DistinctWindow(Finals(History(entries)), MAX_TRACKED_FINAL_ORDER_IDS);
  }

  /** What one entry does, status by status: the first sighting of an order is a
      placement; later a cancelled, rejected or expired one is a cancel and any other,
      a filled one included, a change; an order that ended leaves the live set. */
  lemma EntryIsExact(s: State, id: string, status: OrderStatus, other: string)
    requires id != "" && other != id && id !in s.finals
    ensures var t, e := Step(s, Order(id, status)), status in {OrderStatus.Cancelled, Rejected, Expired};
            && t.events == s.events + [if id !in s.open then Placed(id, status)
                                       else if e then Event.Cancelled(id, status) else Changed(id, status)]
            && (id in t.open <==> !e && status != Filled) && (id in t.finals <==> e || status == Filled)
            && (other in t.open <==> other in s.open)
  {
    var all := Without(s.finals, id) + [id];
    assert all[|all| - 1] == id;
  }

  lemma IgnoredEntry(s: State, e: Entry)
    requires e.Order? ==> e.id == "" || e.id in s.finals
    ensures Step(s, e) == s
  {
  }

  /** The events of one order. */
  function Of(events: seq<Event>, id: string): seq<Event> {
    if events == [] then []
    else
      var front, last := Of(events[..|events| - 1], id), events[|events| - 1];
      if last.id == id then front + [last] else front
  }

  /** Placed Changed* Cancelled?, with nothing after a final status. */
  ghost predicate Lifecycle(events: seq<Event>) {
    && (forall i :: 0 <= i < |events| ==> (events[i].Placed? <==> i == 0))
    && (forall i :: 0 <= i < |events| - 1 ==> !events[i].status.IsFinal() && !events[i].Cancelled?)
    && (forall i :: 0 <= i < |events| && events[i].Cancelled? ==> events[i].status.IsTerminal())
    && (forall i :: 0 <= i < |events| && events[i].Changed? ==> !events[i].status.IsTerminal())
  }

  lemma {:induction false} LastOf(events: seq<Event>, id: string)
    ensures LastStatus(events, id) ==
              if Of(events, id) == [] then None else Some(Of(events, id)[|Of(events, id)| - 1].status)
  {
    if events != [] { LastOf(events[..|events| - 1], id); }
  }

  lemma OfSnoc(events: seq<Event>, v: Event, id: string)
    ensures Of(events + [v], id) == Of(events, id) + (if v.id == id then [v] else [])
  {
    assert (events + [v])[..|events|] == events;
  }

  lemma LifecycleSnoc(events: seq<Event>, v: Event)
    requires Lifecycle(events) && (events != [] ==> !events[|events| - 1].status.IsFinal())
    requires v.Placed? <==> events == []
    requires v.Cancelled? ==> v.status.IsTerminal()
    requires v.Changed? ==> !v.status.IsTerminal()
    ensures Lifecycle(events + [v])
  {
    var after := events + [v];
    assert forall i :: 0 <= i < |events| ==> after[i] == events[i];
    assert events != [] ==> !events[|events| - 1].Cancelled?;
  }

  /** The unbounded history gives every order a proper life cycle. */
  lemma {:induction false} HistoryLifecycle(entries: seq<Entry>, id: string)
    ensures Lifecycle(Of(History(entries), id))
  {
    if entries != [] {
      var events, e := History(entries[..|entries| - 1]), entries[|entries| - 1];
      HistoryLifecycle(entries[..|entries| - 1], id);
      if Accepted(e) && !Finished(events, e.id) {
        var v := if LastStatus(events, e.id).None? then Placed(e.id, e.status) else Progress(e);
        OfSnoc(events, v, id);
        if v.id == id {
          LastOf(events, id);
          LifecycleSnoc(Of(events, id), v);
        }
      }
    }
  }

  /** So does the adapter, as long as no order was evicted. */
  lemma PublishedLifecycle(entries: seq<Entry>, id: string)
    requires |Finals(History(entries))| <= MAX_TRACKED_FINAL_ORDER_IDS
    ensures Lifecycle(Of(Run(entries).events, id))
  {
    BoundedRefinesUnbounded(entries);
    HistoryLifecycle(entries, id);
  }

  // ---- The adapter's sets, updated in place ----

  class OrderStream {
    var open: set<string>
    var finals: seq<string>
    var events: seq<Event>

    ghost function Model(): State
      reads this
    {
      State(open, finals, events)
    }

    constructor ()
      ensures Model() == EMPTY
    {
      open, finals, events := {}, [], [];
    }

    /** Retires an id: it becomes the newest finished one, the oldest are dropped. */
    method MoveToFinal(id: string)
      modifies this
      ensures Model() == Retired(old(Model()), id)
    {
      open := open - {id};
      finals := Without(finals, id) + [id];
      ghost var all := finals;
      while |finals| > MAX_TRACKED_FINAL_ORDER_IDS
        modifies `finals
        invariant Newest(finals, MAX_TRACKED_FINAL_ORDER_IDS) == Newest(all, MAX_TRACKED_FINAL_ORDER_IDS)
      {
        finals := finals[1..];
      }
    }

    method OnOrderMessage(entries: seq<Entry>)
      modifies this
      ensures Model() == RunFrom(old(Model()), entries)
    {
      for i := 0 to |entries|
        invariant Model() == RunFrom(old(Model()), entries[..i])
      {
        assert entries[..i + 1][..i] == entries[..i];
        OnOrderEntry(entries[i]);
      }
      assert entries[..|entries|] == entries;
    }

    method OnOrderEntry(e: Entry)
      modifies this
      ensures Model() == Step(old(Model()), e)
    {
      if !Accepted(e) || e.id in finals { return; }
      if e.id in open {
        if e.status.IsTerminal() {
          MoveToFinal(e.id);
          events := events + [Event.Cancelled(e.id, e.status)];
        } else {
          events := events + [Changed(e.id, e.status)];
          if e.status.IsFinal() { MoveToFinal(e.id); }
        }
        return;
      }
      events := events + [Placed(e.id, e.status)];
      if e.status.IsFinal() { MoveToFinal(e.id); } else { open := open + {e.id}; }
    }
  }

  function RunFrom(s: State, entries: seq<Entry>): State {
    if entries == [] then s else Step(RunFrom(s, entries[..|entries| - 1]), entries[|entries| - 1])
  }

  /** Messages only chop the stream of entries into pieces. */
  lemma {:induction false} MessagesCompose(seen: seq<Entry>, message: seq<Entry>)
    ensures RunFrom(Run(seen), message) == Run(seen + message)
  {
    if message == [] {
      assert seen + message == seen;
    } else {
      assert (seen + message)[..|seen + message| - 1] == seen + message[..|message| - 1];
      MessagesCompose(seen, message[..|message| - 1]);
    }
  }
}
