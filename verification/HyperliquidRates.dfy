/** The sliding-window spend tracker over the shared request budget. */
module HyperliquidRates {

  const IP_WEIGHT_BUDGET_PER_MINUTE := 1200
  const IP_WEIGHT_WINDOW_SECONDS := 60

  datatype Entry = Entry(at: int, weight: int)

  /** The entries younger than the cutoff, in order. */
  function Live(log: seq<Entry>, cutoff: int): seq<Entry> {
    if log == [] then []
    else if log[0].at > cutoff then [log[0]] + Live(log[1..], cutoff)
    else Live(log[1..], cutoff)
  }

  lemma {:induction false} LiveMember(log: seq<Entry>, cutoff: int, e: Entry)
    ensures e in Live(log, cutoff) <==> e in log && e.at > cutoff
  {
    if log != [] {
      LiveMember(log[1..], cutoff, e);
    }
  }

  function Total(entries: seq<Entry>): int {
    if entries == [] then 0 else entries[0].weight + Total(entries[1..])
  }

  /** What the window holds at an instant, by the complete record history. */
  function WindowSum(log: seq<Entry>, window: int, now: int): int {
    Total(Live(log, now - window))
  }

  /** The earliest instant in a nonempty list. */
  function Oldest(entries: seq<Entry>): int
    requires entries != []
  {
    if |entries| == 1 then entries[0].at
    else
      var rest := Oldest(entries[1..]);
      if entries[0].at <= rest then entries[0].at else rest
  }

  lemma {:induction false} OldestIsLeast(entries: seq<Entry>) returns (k: nat)
    requires entries != []
    ensures k < |entries| && entries[k].at == Oldest(entries)
    ensures forall i :: 0 <= i < |entries| ==> Oldest(entries) <= entries[i].at
  {
    if |entries| == 1 {
      k := 0;
    } else {
      var m := OldestIsLeast(entries[1..]);
      assert forall i :: 1 <= i < |entries| ==> entries[i] == entries[1..][i - 1];
      k := if entries[0].at <= Oldest(entries[1..]) then 0 else m + 1;
    }
  }

  function ResetDelay(log: seq<Entry>, window: int, now: int): int {
    var live := Live(log, now - window);
    if live == [] then 0
    else if Oldest(live) + window - now > 0 then Oldest(live) + window - now else 0
  }

  /** What a run of recordings up to `now` under a non-decreasing clock leaves. */
  ghost predicate Recorded(log: seq<Entry>, now: int) {
    forall i :: 0 <= i < |log| ==> log[i].weight > 0 && log[i].at <= now
  }

  /** Pruning at an earlier cutoff loses nothing a later one would keep. */
  lemma {:induction false} PrunedIsEnough(log: seq<Entry>, early: int, late: int)
    requires early <= late
    ensures Live(Live(log, early), late) == Live(log, late)
  {
    if log != [] {
      PrunedIsEnough(log[1..], early, late);
      var rest := Live(log[1..], early);
      if log[0].at > early {
        assert Live(log, early) == [log[0]] + rest;
        assert ([log[0]] + rest)[1..] == rest;
      }
    }
  }

  lemma {:induction false} LiveSnoc(log: seq<Entry>, e: Entry, cutoff: int)
    ensures Live(log + [e], cutoff) == Live(log, cutoff) + (if e.at > cutoff then [e] else [])
  {
    if log == [] {
      assert log + [e] == [e];
    } else {
      LiveSnoc(log[1..], e, cutoff);
      assert (log + [e])[1..] == log[1..] + [e];
    }
  }

  /** Moving the cutoff drops weight exactly when an entry lies in between. */
  lemma {:induction false} LaterCutoff(log: seq<Entry>, early: int, late: int)
    requires early <= late
    requires forall i :: 0 <= i < |log| ==> log[i].weight > 0
    ensures Total(Live(log, late)) <= Total(Live(log, early))
    ensures (forall i :: 0 <= i < |log| && early < log[i].at ==> late < log[i].at) ==>
              Total(Live(log, late)) == Total(Live(log, early))
    ensures forall i :: 0 <= i < |log| && early < log[i].at <= late ==>
              Total(Live(log, late)) < Total(Live(log, early))
  {
    if log != [] {
      var rest := log[1..];
      assert forall i :: 0 <= i < |rest| ==> rest[i] == log[i + 1];
      LaterCutoff(rest, early, late);
      assert forall i :: 1 <= i < |log| ==> log[i] == rest[i - 1];
      TotalCons(log[0], Live(rest, early));
      TotalCons(log[0], Live(rest, late));
    }
  }

  lemma TotalCons(e: Entry, rest: seq<Entry>)
    ensures Total([e] + rest) == e.weight + Total(rest)
  {
    assert ([e] + rest)[1..] == rest;
  }

  lemma {:induction false} LiveTotalPositive(log: seq<Entry>, cutoff: int)
    requires forall i :: 0 <= i < |log| ==> log[i].weight > 0
    ensures Total(Live(log, cutoff)) >= 0
    ensures Live(log, cutoff) != [] ==> Total(Live(log, cutoff)) > 0
  {
    if log != [] {
      LiveTotalPositive(log[1..], cutoff);
      TotalCons(log[0], Live(log[1..], cutoff));
    }
  }

  /** With nothing recorded in between, the spend is constant until the reset
      delay elapses and strictly smaller from that very instant. */
  lemma ResetIsTheFirstRecovery(log: seq<Entry>, window: int, now: int, t: int)
    requires Recorded(log, now) && window > 0 && t >= now
    ensures t < now + ResetDelay(log, window, now) ==>
              WindowSum(log, window, t) == WindowSum(log, window, now)
    ensures WindowSum(log, window, now) != 0 && t >= now + ResetDelay(log, window, now) ==>
              WindowSum(log, window, t) < WindowSum(log, window, now)
    ensures ResetDelay(log, window, now) >= 0 && (ResetDelay(log, window, now) == 0 <==> WindowSum(log, window, now) == 0)
  {
    var early, late := now - window, t - window;
    var live := Live(log, early);
    LaterCutoff(log, early, late);
    LiveTotalPositive(log, early);
    if live != [] {
      var k := OldestIsLeast(live);
      LiveMember(log, early, live[k]);
      var i :| 0 <= i < |log| && log[i] == live[k];
      forall m | 0 <= m < |log| && early < log[m].at ensures Oldest(live) <= log[m].at {
        LiveMember(log, early, log[m]);
      }
    } else {
      assert Total(live) == 0;
    }
  }

  class RateBudget {
    const budget: int
    const window: int
    var entries: seq<Entry>
    ghost var log: seq<Entry>
    ghost var clock: int
    ghost var pruned: int

    ghost predicate Valid()
      reads this
    {
      && window > 0 && pruned <= clock - window
      && entries == Live(log, pruned)
      && Recorded(log, clock)
    }

    /** `start` is any instant the clock has reached; nothing was recorded yet. */
    constructor (
      budget: int := IP_WEIGHT_BUDGET_PER_MINUTE, window: int := IP_WEIGHT_WINDOW_SECONDS, ghost start: int := 0)
      requires window > 0
      ensures Valid() && log == [] && clock == start
      ensures this.budget == budget && this.window == window
    {
      this.budget, this.window := budget, window;
      entries, log, clock, pruned := [], [], start, start - window;
    }

    /** Forgets what has left the window; no later answer can tell. */
    method Prune(now: int)
      requires Valid() && now >= clock
      modifies this`entries, this`clock, this`pruned
      ensures Valid() && clock == now && entries == Live(log, now - window)
    {
      PrunedIsEnough(log, pruned, now - window);
      var before, kept := entries, [];
      for i := 0 to |before|
        invariant kept == Live(before[..i], now - window)
        modifies {}
      {
        assert before[..i + 1] == before[..i] + [before[i]];
        LiveSnoc(before[..i], before[i], now - window);
        if before[i].at > now - window { kept := kept + [before[i]]; }
      }
      assert before[..|before|] == before;
      entries, clock, pruned := kept, now, now - window;
    }

    method Record(weight: int, now: int)
      requires Valid() && now >= clock
      modifies this
      ensures Valid() && old(clock) <= clock <= now
      ensures log == if weight <= 0 then old(log) else old(log) + [Entry(now, weight)]
    {
      if weight <= 0 { return; }
      Prune(now);
      LiveSnoc(log, Entry(now, weight), pruned);
      entries := entries + [Entry(now, weight)];
      log := log + [Entry(now, weight)];
    }

    method Spent(now: int) returns (s: int)
      requires Valid() && now >= clock
      modifies this`entries, this`clock, this`pruned
      ensures Valid() && clock == now
      ensures s == WindowSum(log, window, now)
    {
      Prune(now);
      s := 0;
      var i := |entries|;
      while i > 0
        invariant 0 <= i <= |entries|
        invariant s == Total(entries[i..])
      {
        i := i - 1;
        assert entries[i..][1..] == entries[i + 1..];
        s := s + entries[i].weight;
      }
      assert entries[0..] == entries;
    }

    method Remaining(now: int) returns (r: int)
      requires Valid() && now >= clock
      modifies this`entries, this`clock, this`pruned
      ensures Valid() && clock == now
      ensures r == Left(budget, WindowSum(log, window, now))
    {
      var s := Spent(now);
      r := if budget - s > 0 then budget - s else 0;
    }

    method ResetsIn(now: int) returns (delay: int)
      requires Valid() && now >= clock
      modifies this`entries, this`clock, this`pruned
      ensures Valid() && clock == now
      ensures delay == ResetDelay(log, window, now)
    {
      Prune(now);
      var live := entries;
      if |live| == 0 { return 0; }
      var oldest := live[0].at;
      for i := 1 to |live|
        invariant oldest == Oldest(live[..i])
        modifies {}
      {
        OldestSnoc(live[..i], live[i]);
        assert live[..i + 1] == live[..i] + [live[i]];
        if live[i].at < oldest { oldest := live[i].at; }
      }
      assert live[..|live|] == live;
      delay := if oldest + window - now > 0 then oldest + window - now else 0;
    }
  }

  lemma {:induction false} OldestSnoc(entries: seq<Entry>, e: Entry)
    requires entries != []
    ensures Oldest(entries + [e]) == if e.at < Oldest(entries) then e.at else Oldest(entries)
  {
    if |entries| > 1 {
      OldestSnoc(entries[1..], e);
      assert (entries + [e])[1..] == entries[1..] + [e];
    }
  }

  // ---- Any sequence of uses ----

  datatype Op = Records(weight: int, now: int) | AsksSpent(now: int) | AsksRemaining(now: int) | AsksReset(now: int)

  /** What a budget leaves after a spend, never below zero. */
  function Left(budget: int, spent: int): (r: int)
    ensures r >= 0 && r >= budget - spent
    ensures r > 0 <==> spent < budget
    ensures r > 0 ==> r + spent == budget
  {
    if budget - spent > 0 then budget - spent else 0
  }

  /** Every weight recorded, with its instant. */
  function History(ops: seq<Op>): seq<Entry> {
    if ops == [] then []
    else
      var front, last := History(ops[..|ops| - 1]), ops[|ops| - 1];
      if last.Records? && last.weight > 0 then front + [Entry(last.now, last.weight)] else front
  }

  /** The answer the complete history gives; a recording answers nothing. */
  function AnswerOf(log: seq<Entry>, op: Op, budget: int, window: int): int {
    match op
    case Records(_, _) => 0
    case AsksSpent(now) => WindowSum(log, window, now)
    case AsksRemaining(now) => Left(budget, WindowSum(log, window, now))
    case AsksReset(now) => ResetDelay(log, window, now)
  }

  ghost predicate InOrder(start: int, ops: seq<Op>) {
    && (forall i :: 0 <= i < |ops| ==> start <= ops[i].now)
    && (forall i, j :: 0 <= i < j < |ops| ==> ops[i].now <= ops[j].now)
  }

  method Serve(tracker: RateBudget, op: Op) returns (answer: int)
    requires tracker.Valid() && op.now >= tracker.clock
    modifies tracker
    ensures tracker.Valid() && tracker.clock <= op.now
    ensures tracker.log == old(tracker.log) + History([op])
    ensures answer == AnswerOf(old(tracker.log), op, tracker.budget, tracker.window)
  {
    answer := 0;
    assert [op][..0] == [];
    match op
    case Records(weight, now) => tracker.Record(weight, now);
    case AsksSpent(now) => answer := tracker.Spent(now);
    case AsksRemaining(now) => answer := tracker.Remaining(now);
    case AsksReset(now) => answer := tracker.ResetsIn(now);
  }

  lemma HistorySnoc(ops: seq<Op>, op: Op)
    ensures History(ops + [op]) == History(ops) + History([op])
  {
    assert (ops + [op])[..|ops|] == ops && [op][..0] == [];
  }

  /** Over any sequence of recordings and questions at non-decreasing instants,
      every answer of the pruned tracker is the one of the complete history. */
  method ServeAll(budget: int, window: int, ghost start: int, ops: seq<Op>) returns (answers: seq<int>)
    requires window > 0 && InOrder(start, ops)
    ensures |answers| == |ops|
    ensures forall i :: 0 <= i < |ops| ==> answers[i] == AnswerOf(History(ops[..i]), ops[i], budget, window)
  {
    var tracker := new RateBudget(budget, window, start);
    answers := [];
    for i := 0 to |ops|
      invariant tracker.Valid() && fresh(tracker) && tracker.budget == budget && tracker.window == window
      invariant tracker.clock <= if i == 0 then start else ops[i - 1].now
      invariant tracker.log == History(ops[..i]) && |answers| == i
      invariant forall j :: 0 <= j < i ==> answers[j] == AnswerOf(History(ops[..j]), ops[j], budget, window)
    {
      HistorySnoc(ops[..i], ops[i]);
      assert ops[..i + 1] == ops[..i] + [ops[i]];
      var answer := Serve(tracker, ops[i]);
      answers := answers + [answer];
    }
  }
}
