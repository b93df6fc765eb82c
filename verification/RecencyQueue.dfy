/** Bounded recency-ordered sets of ids, oldest first.

    Several adapters remember ids in a container of fixed size: a `deque` with a
    maximum length, or an insertion-ordered dictionary trimmed from its old end.
    `Window` is the content of such a container after a log of insertions, and
    the lemmas below say how much has to happen before an id is forgotten. */
module RecencyQueue {

  ghost predicate Distinct<T(!new)>(q: seq<T>) {
    forall i, j :: 0 <= i < j < |q| ==> q[i] != q[j]
  }

  ghost function Elems<T(!new)>(q: seq<T>): set<T> {
    set x | x in q
  }

  function Without<T(==, !new)>(q: seq<T>, x: T): (r: seq<T>)
    ensures x !in r
    ensures forall y :: y in r <==> y in q && y != x
    ensures |r| <= |q|
    ensures x !in q ==> r == q
  {
    if q == [] then []
    else if q[0] == x then Without(q[1..], x)
    else [q[0]] + Without(q[1..], x)
  }

  lemma {:induction false} WithoutKeepsDistinct<T(!new)>(q: seq<T>, x: T)
    requires Distinct(q)
    ensures Distinct(Without(q, x))
    ensures x in q ==> |Without(q, x)| == |q| - 1
  {
    if q != [] {
      WithoutKeepsDistinct(q[1..], x);
      assert q[0] !in q[1..];
    }
  }

  /** Keeps the `cap` newest ids. */
  function Newest<T(!new)>(q: seq<T>, cap: nat): (r: seq<T>)
    ensures |r| <= cap
    ensures forall y :: y in r ==> y in q
    ensures |q| <= cap ==> r == q
  {
    if |q| > cap then q[|q| - cap..] else q
  }

  /** Inserts `x` as the newest id, forgetting the oldest ids beyond `cap`. */
  function Touch<T(==, !new)>(q: seq<T>, x: T, cap: nat): (r: seq<T>)
  {
    Newest(Without(q, x) + [x], cap)
  }

  lemma TouchKeepsShape<T(!new)>(q: seq<T>, x: T, cap: nat)
    requires Distinct(q) && cap > 0
    ensures Distinct(Touch(q, x, cap))
    ensures 0 < |Touch(q, x, cap)| <= cap
    ensures Touch(q, x, cap)[|Touch(q, x, cap)| - 1] == x
    ensures x in Touch(q, x, cap)
    ensures forall y :: y in Touch(q, x, cap) ==> y in q || y == x
  {
    WithoutKeepsDistinct(q, x);
    var all := Without(q, x) + [x];
    var r := Touch(q, x, cap);
    assert r[|r| - 1] == x;
  }

  /** Appending to a full container drops its oldest id. */
  lemma AppendIsTouch<T(!new)>(q: seq<T>, x: T, cap: nat)
    requires x !in q && |q| <= cap
    ensures Touch(q, x, cap) == if |q + [x]| > cap then (q + [x])[1..] else q + [x]
  {
    assert Without(q, x) == q;
  }

  /** The container after the insertions of `log`, starting empty. */
  function Window<T(==, !new)>(log: seq<T>, cap: nat): seq<T> {
    if log == [] then [] else Touch(Window(log[..|log| - 1], cap), log[|log| - 1], cap)
  }

  lemma WindowSnoc<T(!new)>(log: seq<T>, x: T, cap: nat)
    ensures Window(log + [x], cap) == Touch(Window(log, cap), x, cap)
  {
    assert (log + [x])[..|log|] == log;
  }

  lemma {:induction false} WindowShape<T(!new)>(log: seq<T>, cap: nat)
    requires cap > 0
    ensures Distinct(Window(log, cap))
    ensures |Window(log, cap)| <= cap
    ensures forall y :: y in Window(log, cap) ==> y in log
  {
    if log != [] {
      var front := log[..|log| - 1];
      WindowShape(front, cap);
      TouchKeepsShape(Window(front, cap), log[|log| - 1], cap);
    }
  }

  // ---- How long an id is remembered ----

  /** The ids newer than `x`. */
  ghost function After<T(!new)>(q: seq<T>, x: T): (r: seq<T>)
    requires x in q
    ensures forall y :: y in r ==> y in q
  {
    if q[0] == x then q[1..] else After(q[1..], x)
  }

  lemma {:induction false} AfterKeepsDistinct<T(!new)>(q: seq<T>, x: T)
    requires x in q && Distinct(q)
    ensures Distinct(After(q, x))
  {
    if q[0] != x { AfterKeepsDistinct(q[1..], x); }
  }

  lemma {:induction false} AfterWithout<T(!new)>(q: seq<T>, x: T, y: T)
    requires x in q && x != y
    ensures After(Without(q, y), x) == Without(After(q, x), y)
  {
    if q[0] == x {
      assert Without(q, y) == [x] + Without(q[1..], y);
    } else {
      AfterWithout(q[1..], x, y);
      if q[0] != y {
        var w := Without(q, y);
        assert w[0] == q[0] && w[1..] == Without(q[1..], y);
      }
    }
  }

  lemma {:induction false} AfterSnoc<T(!new)>(q: seq<T>, x: T, y: T)
    requires x in q
    ensures After(q + [y], x) == After(q, x) + [y]
  {
    if q[0] == x {
      assert (q + [y])[1..] == q[1..] + [y];
    } else {
      assert (q + [y])[1..] == q[1..] + [y];
      AfterSnoc(q[1..], x, y);
    }
  }

  lemma {:induction false} AfterDrop<T(!new)>(q: seq<T>, x: T, k: nat)
    requires x in q && k <= |q| && Distinct(q)
    ensures x in q[k..] ==> After(q[k..], x) == After(q, x)
    ensures x !in q[k..] ==> |After(q, x)| >= |q| - k
  {
    if k > 0 {
      assert q[k..] == q[1..][k - 1..];
      if q[0] == x {
        assert forall i :: k <= i < |q| ==> q[i] != q[0];
      } else {
        AfterDrop(q[1..], x, k - 1);
      }
    } else {
      assert q[0..] == q;
    }
  }

  lemma {:induction false} DistinctCount<T(!new)>(q: seq<T>)
    requires Distinct(q)
    ensures |Elems(q)| == |q|
  {
    if q != [] {
      DistinctCount(q[1..]);
      assert Elems(q) == {q[0]} + Elems(q[1..]);
      assert q[0] !in Elems(q[1..]);
    }
  }

  lemma SubsetCount<T(!new)>(a: set<T>, b: set<T>)
    requires a <= b
    ensures |a| <= |b|
  {
    assert b == a + (b - a);
  }

  /** One insertion either keeps an older id, with the new one behind it, or
      displaces it, in which case `cap` distinct newer ids are there. */
  lemma TouchAfter<T(!new)>(q: seq<T>, x: T, y: T, cap: nat) returns (newer: seq<T>)
    requires Distinct(q) && x in q && x != y && cap > 0
    ensures newer == Without(After(q, x), y) + [y] && Distinct(newer)
    ensures x in Touch(q, y, cap) ==> After(Touch(q, y, cap), x) == newer
    ensures x !in Touch(q, y, cap) ==> |newer| >= cap
  {
    var all := Without(q, y) + [y];
    WithoutKeepsDistinct(q, y);
    AfterWithout(q, x, y);
    AfterSnoc(Without(q, y), x, y);
    newer := After(all, x);
    AfterKeepsDistinct(all, x);
    NewestAfter(all, x, cap);
  }

  lemma {:induction false} NewestAfter<T(!new)>(all: seq<T>, x: T, cap: nat)
    requires Distinct(all) && x in all && cap > 0
    ensures x in Newest(all, cap) ==> After(Newest(all, cap), x) == After(all, x)
    ensures x !in Newest(all, cap) ==> |After(all, x)| >= cap
  {
    if |all| > cap {
      AfterDrop(all, x, |all| - cap);
      assert Newest(all, cap) == all[|all| - cap..];
    } else {
      assert Newest(all, cap) == all;
    }
  }

  /** After the last insertion of `log[i]`, the id is still held and everything
      newer than it was inserted later; or at least `cap` distinct ids were. */
  lemma {:induction false} HeldOrDisplaced<T(!new)>(log: seq<T>, i: nat, cap: nat)
    requires cap > 0 && i < |log|
    requires log[i] !in log[i + 1..]
    ensures log[i] in Window(log, cap) ==>
              forall y :: y in After(Window(log, cap), log[i]) ==> y in log[i + 1..]
    ensures log[i] !in Window(log, cap) ==> |Elems(log[i + 1..])| >= cap
    decreases |log|
  {
    var x := log[i];
    var front, y := log[..|log| - 1], log[|log| - 1];
    var w := Window(front, cap);
    WindowShape(front, cap);
    TouchKeepsShape(w, y, cap);
    if i == |log| - 1 {
      LastHasNothingAfter(Touch(w, x, cap));
    } else {
      assert log[i + 1..] == front[i + 1..] + [y];
      assert x != y;
      HeldOrDisplaced(front, i, cap);
      SubsetCount(Elems(front[i + 1..]), Elems(log[i + 1..]));
      if x in w {
        var newer := TouchAfter(w, x, y, cap);
        DistinctCount(newer);
        SubsetCount(Elems(newer), Elems(log[i + 1..]));
      }
    }
  }

  lemma {:induction false} LastHasNothingAfter<T(!new)>(q: seq<T>)
    requires q != [] && Distinct(q)
    ensures After(q, q[|q| - 1]) == []
  {
    if |q| > 1 {
      assert q[0] != q[|q| - 1];
      LastHasNothingAfter(q[1..]);
    }
  }

  lemma {:induction false} LastOccurrence<T(!new)>(log: seq<T>, x: T) returns (i: nat)
    requires x in log
    ensures i < |log| && log[i] == x && x !in log[i + 1..]
    ensures forall k :: 0 <= k < |log| && log[k] == x ==> k <= i
  {
    var front := log[..|log| - 1];
    if log[|log| - 1] == x {
      i := |log| - 1;
    } else {
      assert log == front + [log[|log| - 1]];
      i := LastOccurrence(front, x);
      assert log[i + 1..] == front[i + 1..] + [log[|log| - 1]];
    }
  }

  /** An inserted id that is no longer held was displaced: at least `cap`
      pairwise distinct other ids were inserted since. */
  lemma ForgottenNeedsCap<T(!new)>(log: seq<T>, i: nat, cap: nat)
    requires cap > 0 && i < |log|
    requires log[i] !in Window(log, cap)
    ensures |Elems(log[i + 1..]) - {log[i]}| >= cap
  {
    var x := log[i];
    var last := LastOccurrence(log, x);
    HeldOrDisplaced(log, last, cap);
    assert Elems(log[last + 1..]) <= Elems(log[i + 1..]) - {x} by {
      assert log[last + 1..] == log[i + 1..][last - i..];
    }
    SubsetCount(Elems(log[last + 1..]), Elems(log[i + 1..]) - {x});
  }

  /** Every insertion was of an id not held at that moment. */
  ghost predicate Guarded<T(!new)>(log: seq<T>, cap: nat) {
    forall j :: 0 <= j < |log| ==> log[j] !in Window(log[..j], cap)
  }

  lemma GuardedSnoc<T(!new)>(log: seq<T>, x: T, cap: nat)
    requires Guarded(log, cap) && x !in Window(log, cap)
    ensures Guarded(log + [x], cap)
  {
    forall j | 0 <= j < |log + [x]| ensures (log + [x])[j] !in Window((log + [x])[..j], cap) {
      assert (log + [x])[..j] == log[..j];
      if j == |log| { assert log[..j] == log; }
    }
  }

  /** Two insertions of the same id in a guarded log are separated by at least
      `cap` pairwise distinct other ids. */
  lemma ReentryNeedsCap<T(!new)>(log: seq<T>, i: nat, j: nat, cap: nat)
    requires cap > 0 && Guarded(log, cap)
    requires i < j < |log| && log[i] == log[j]
    ensures |Elems(log[i + 1..j]) - {log[i]}| >= cap
  {
    assert log[..j][i + 1..] == log[i + 1..j];
    ForgottenNeedsCap(log[..j], i, cap);
  }

  /** The id is held and everything newer than it is among fewer than `cap` others. */
  ghost predicate HeldAmong<T(!new)>(q: seq<T>, x: T, others: set<T>, cap: nat) {
    && Distinct(q) && |q| <= cap && x in q && |others| < cap
    && forall z :: z in After(q, x) ==> z in others
  }

  /** Inserting one of the others, or the id itself, keeps it held. */
  lemma StaysHeld<T(!new)>(q: seq<T>, x: T, y: T, others: set<T>, cap: nat)
    requires HeldAmong(q, x, others, cap) && (y == x || y in others)
    ensures HeldAmong(Touch(q, y, cap), x, others, cap)
  {
    TouchKeepsShape(q, y, cap);
    if y == x {
      LastHasNothingAfter(Touch(q, x, cap));
    } else {
      var newer := TouchAfter(q, x, y, cap);
      DistinctCount(newer);
      SubsetCount(Elems(newer), others);
    }
  }

  function TouchAll<T(==, !new)>(q: seq<T>, log: seq<T>, cap: nat): seq<T> {
    if log == [] then q else Touch(TouchAll(q, log[..|log| - 1], cap), log[|log| - 1], cap)
  }

  /** Inserting a whole log into an empty container gives the window of the log. */
  lemma {:induction false} TouchAllIsWindow<T(!new)>(log: seq<T>, cap: nat)
    ensures TouchAll([], log, cap) == Window(log, cap)
  {
    if log != [] { TouchAllIsWindow(log[..|log| - 1], cap); }
  }

  /** While fewer than `cap` distinct other ids are inserted, however often and in
      whatever order, an id is never displaced. */
  lemma {:induction false} StaysHeldThroughout<T(!new)>(q: seq<T>, x: T, log: seq<T>, others: set<T>, cap: nat)
    requires HeldAmong(q, x, others, cap)
    requires forall i :: 0 <= i < |log| ==> log[i] == x || log[i] in others
    ensures HeldAmong(TouchAll(q, log, cap), x, others, cap)
  {
    if log != [] {
      StaysHeldThroughout(q, x, log[..|log| - 1], others, cap);
      StaysHeld(TouchAll(q, log[..|log| - 1], cap), x, log[|log| - 1], others, cap);
    }
  }

  // ---- Suppressing what follows a final event ----

  /** The ids of the final events of a log, each event being an id and whether it
      is final. */
  function FinalIds<T>(log: seq<(T, bool)>): seq<T> {
    if log == [] then []
    else if log[|log| - 1].1 then FinalIds(log[..|log| - 1]) + [log[|log| - 1].0]
    else FinalIds(log[..|log| - 1])
  }

  lemma FinalIdsSnoc<T>(log: seq<(T, bool)>, e: (T, bool))
    ensures FinalIds(log + [e]) == if e.1 then FinalIds(log) + [e.0] else FinalIds(log)
  {
    assert (log + [e])[..|log|] == log;
  }

  lemma {:induction false} FinalIdsConcat<T>(a: seq<(T, bool)>, b: seq<(T, bool)>)
    ensures FinalIds(a + b) == FinalIds(a) + FinalIds(b)
  {
    if b == [] {
      assert a + b == a;
    } else {
      assert (a + b)[..|a + b| - 1] == a + b[..|b| - 1];
      FinalIdsConcat(a, b[..|b| - 1]);
    }
  }

  /** Where a final event stands in the log of final ids. */
  lemma {:induction false} FinalIdsAround<T>(log: seq<(T, bool)>, i: nat)
    requires i < |log| && log[i].1
    ensures FinalIds(log) == FinalIds(log[..i]) + [log[i].0] + FinalIds(log[i + 1..])
  {
    FinalIdsSnoc(log[..i], log[i]);
    FinalIdsConcat(log[..i] + [log[i]], log[i + 1..]);
    assert log == (log[..i] + [log[i]]) + log[i + 1..];
  }

  /** A finished id that the bounded memory no longer holds was displaced by at
      least `cap` distinct others that finished after it. */
  lemma SilencedUntilForgotten<T(!new)>(log: seq<(T, bool)>, i: nat, cap: nat)
    requires cap > 0 && i < |log| && log[i].1
    requires log[i].0 !in Window(FinalIds(log), cap)
    ensures |Elems(FinalIds(log[i + 1..])) - {log[i].0}| >= cap
  {
    FinalIdsAround(log, i);
    var finals, at := FinalIds(log), |FinalIds(log[..i])|;
    assert finals[at] == log[i].0;
    assert finals[at + 1..] == FinalIds(log[i + 1..]);
    ForgottenNeedsCap(finals, at, cap);
  }

  /** No event was logged for an id remembered as finished. */
  ghost predicate Unfinished<T(!new)>(log: seq<(T, bool)>, cap: nat) {
    log == []
    || (Unfinished(log[..|log| - 1], cap) && log[|log| - 1].0 !in Window(FinalIds(log[..|log| - 1]), cap))
  }

  lemma UnfinishedSnoc<T(!new)>(log: seq<(T, bool)>, e: (T, bool), cap: nat)
    requires Unfinished(log, cap) && e.0 !in Window(FinalIds(log), cap)
    ensures Unfinished(log + [e], cap)
  {
    assert (log + [e])[..|log|] == log;
  }

  lemma {:induction false} UnfinishedAt<T(!new)>(log: seq<(T, bool)>, j: nat, cap: nat)
    requires Unfinished(log, cap) && j < |log|
    ensures log[j].0 !in Window(FinalIds(log[..j]), cap)
  {
    if j < |log| - 1 {
      UnfinishedAt(log[..|log| - 1], j, cap);
      assert log[..|log| - 1][..j] == log[..j];
    }
  }

  /** Between a final event and the next event of the same id, at least `cap`
      distinct other ids finished. */
  lemma NothingFollowsFinal<T(!new)>(log: seq<(T, bool)>, i: nat, j: nat, cap: nat)
    requires cap > 0 && Unfinished(log, cap)
    requires i < j < |log| && log[i].1 && log[i].0 == log[j].0
    ensures |Elems(FinalIds(log[i + 1..j])) - {log[i].0}| >= cap
  {
    UnfinishedAt(log, j, cap);
    assert log[..j][i + 1..] == log[i + 1..j];
    SilencedUntilForgotten(log[..j], i, cap);
  }
}
