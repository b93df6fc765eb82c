/** Trading halts: the in-memory state machine, the persisted table it is mirrored
    into, and the engine operations that change both. */
module EngineHalts {
  import opened Common

  /** Identity of an instrument; `details` stands for exchange, currency, expiry,
      strike, option right and multiplier together. */
  datatype Instrument = Instrument(symbol: string, quote: Option<string>, assetClass: string, details: string)

  datatype Target = Account | Of(instrument: Instrument)

  datatype Entry = Entry(reason: string, detail: string)

  datatype Config = Config(autoHalt: bool, automaticClear: bool)

  // ---- The state machine ----

  datatype Machine = Machine(instruments: map<Instrument, Entry>, account: Option<Entry>)

  const NO_HALTS := Machine(map[], None)

  predicate IsHalted(m: Machine, t: Target) {
    if t.Account? then m.account.Some? else t.instrument in m.instruments
  }

  /** Adds a halt that is not there yet. */
  function Restore(m: Machine, t: Target, e: Entry): Machine {
    if IsHalted(m, t) then m
    else if t.Account? then m.(account := Some(e))
    else m.(instruments := m.instruments[t.instrument := e])
  }

  function Enter(m: Machine, c: Config, t: Target, e: Entry): Machine {
    if c.autoHalt then Restore(m, t, e) else m
  }

  function Release(m: Machine, t: Target): Machine {
    if t.Account? then m.(account := None) else m.(instruments := m.instruments - {t.instrument})
  }

  /** A clear needs a clean reconciliation in automatic mode, a request in manual mode. */
  predicate MayClear(m: Machine, c: Config, t: Target, clean: bool, manual: bool) {
    IsHalted(m, t) && if c.automaticClear then clean else manual
  }

  class HaltStateMachine {
    const config: Config
    var instruments: map<Instrument, Entry>
    var account: Option<Entry>

    function Model(): Machine
      reads this
    {
      Machine(instruments, account)
    }

    constructor (c: Config)
      ensures config == c && Model() == NO_HALTS
    {
      config, instruments, account := c, map[], None;
    }

    method RestoreHalt(t: Target, e: Entry) returns (entered: bool)
      modifies this
      ensures Model() == Restore(old(Model()), t, e)
      ensures entered <==> !IsHalted(old(Model()), t)
    {
      if t.Account? {
        if account.Some? { return false; }
        account := Some(e);
        return true;
      }
      if t.instrument in instruments { return false; }
      instruments := instruments[t.instrument := e];
      return true;
    }

    method EnterHalt(t: Target, e: Entry) returns (entered: bool)
      modifies this
      ensures Model() == Enter(old(Model()), config, t, e)
      ensures entered <==> config.autoHalt && !IsHalted(old(Model()), t)
    {
      if !config.autoHalt { return false; }
      entered := RestoreHalt(t, e);
    }

    method TryClearHalt(t: Target, clean: bool, manual: bool) returns (cleared: bool)
      modifies this
      ensures cleared <==> MayClear(old(Model()), config, t, clean, manual)
      ensures Model() == if cleared then Release(old(Model()), t) else old(Model())
    {
      if !IsHalted(Model(), t) { return false; }
      if config.automaticClear {
        if !clean { return false; }
      } else {
        if !manual { return false; }
      }
      if t.Account? {
        account := None;
      } else {
        instruments := instruments - {t.instrument};
      }
      return true;
    }
  }

  // ---- The persisted table ----

  /** The table's key: one account row, and instrument rows told apart by symbol,
      quote currency and asset class only. */
  datatype Key = AccountKey | InstrumentKey(symbol: string, quote: Option<string>, assetClass: string)

  datatype Row = Row(target: Target, entry: Entry)

  type Table = map<Key, Row>

  function KeyOf(t: Target): Key {
    if t.Account? then AccountKey
    else InstrumentKey(t.instrument.symbol, t.instrument.quote, t.instrument.assetClass)
  }

  /** Rows are stored under the key of the halt they describe. */
  ghost predicate WellKeyed(table: Table) {
    forall k :: k in table ==> KeyOf(table[k].target) == k
  }

  function Targets(table: Table): set<Target> {
    set k | k in table :: table[k].target
  }

  function Active(m: Machine): set<Target> {
    (set i | i in m.instruments :: Of(i)) + (if m.account.Some? then {Account} else {})
  }

  /** The persisted halts are the active ones. */
  ghost predicate InSync(m: Machine, table: Table) {
    WellKeyed(table) && Targets(table) == Active(m)
  }

  /** No two of the halts share a row. */
  ghost predicate KeysDiffer(targets: set<Target>) {
    forall a, b :: a in targets && b in targets && KeyOf(a) == KeyOf(b) ==> a == b
  }

  lemma TargetsOfTable(table: Table, t: Target)
    requires WellKeyed(table)
    ensures t in Targets(table) <==> KeyOf(t) in table && table[KeyOf(t)].target == t
  {
  }

  lemma SyncNeedsDistinctKeys(m: Machine, table: Table)
    requires InSync(m, table)
    ensures KeysDiffer(Active(m))
  {
    forall a, b | a in Active(m) && b in Active(m) && KeyOf(a) == KeyOf(b) ensures a == b {
      TargetsOfTable(table, a);
      TargetsOfTable(table, b);
    }
  }

  lemma UpsertTargets(table: Table, t: Target, e: Entry)
    requires WellKeyed(table)
    ensures WellKeyed(table[KeyOf(t) := Row(t, e)])
    ensures Targets(table[KeyOf(t) := Row(t, e)]) == (set u | u in Targets(table) && KeyOf(u) != KeyOf(t)) + {t}
  {
    var after := table[KeyOf(t) := Row(t, e)];
    forall u ensures u in Targets(after) <==> (u in Targets(table) && KeyOf(u) != KeyOf(t)) || u == t {
      TargetsOfTable(table, u);
      TargetsOfTable(after, u);
    }
  }

  lemma DeleteTargets(table: Table, t: Target)
    requires WellKeyed(table)
    ensures WellKeyed(table - {KeyOf(t)})
    ensures Targets(table - {KeyOf(t)}) == set u | u in Targets(table) && KeyOf(u) != KeyOf(t)
  {
    var after := table - {KeyOf(t)};
    forall u ensures u in Targets(after) <==> u in Targets(table) && KeyOf(u) != KeyOf(t) {
      TargetsOfTable(table, u);
      TargetsOfTable(after, u);
    }
  }

  // ---- Engine operations ----

  datatype State = State(machine: Machine, table: Table)

  function HaltEntered(s: State, c: Config, t: Target, e: Entry): State {
    if c.autoHalt && !IsHalted(s.machine, t) then State(Restore(s.machine, t, e), s.table[KeyOf(t) := Row(t, e)]) else s
  }

  function HaltCleared(s: State, c: Config, t: Target, manual: bool): State {
    if MayClear(s.machine, c, t, true, manual) then State(Release(s.machine, t), s.table - {KeyOf(t)}) else s
  }

  /** An account change enters the halt at once; its row is written whatever the
      state machine answered. */
  function AccountChanged(s: State, c: Config, detail: string): State {
    var e := Entry("account_changed", detail);
    State(Enter(s.machine, c, Account, e), s.table[AccountKey := Row(Account, e)])
  }

  function Instruments(table: Table): set<Instrument> {
    set k | k in table && table[k].target.Of? :: table[k].target.instrument
  }

  function Restored(table: Table): Machine {
    Machine(
      map i | i in Instruments(table) && KeyOf(Of(i)) in table :: table[KeyOf(Of(i))].entry,
      if AccountKey in table then Some(table[AccountKey].entry) else None)
  }

  datatype Op =
    | Enters(target: Target, entry: Entry)
    | Clears(target: Target)
    | ManualClears(target: Target)
    | AccountChanges(detail: string)
    | Restarts

  function Step(s: State, c: Config, op: Op): State {
    match op
    case Enters(t, e) => HaltEntered(s, c, t, e)
    case Clears(t) => HaltCleared(s, c, t, false)
    case ManualClears(t) => HaltCleared(s, c, t, true)
    case AccountChanges(detail) => AccountChanged(s, c, detail)
    case Restarts => s.(machine := Restored(s.table))
  }

  function Run(s: State, c: Config, ops: seq<Op>): State {
    if ops == [] then s else Step(Run(s, c, ops[..|ops| - 1]), c, ops[|ops| - 1])
  }

  lemma RestoredActive(table: Table)
    requires WellKeyed(table)
    ensures Active(Restored(table)) == Targets(table)
  {
    forall t ensures t in Active(Restored(table)) <==> t in Targets(table) { TargetsOfTable(table, t); }
  }

  /** A restart rebuilds the active halts exactly when the table was in sync. */
  lemma RestartRebuildsIffInSync(s: State, c: Config)
    requires WellKeyed(s.table)
    ensures Active(Step(s, c, Restarts).machine) == Active(s.machine) <==> InSync(s.machine, s.table)
  {
    RestoredActive(s.table);
  }

  lemma EnterActive(m: Machine, t: Target, e: Entry)
    ensures Active(Restore(m, t, e)) == Active(m) + {t}
  {
    forall u ensures u in Active(Restore(m, t, e)) <==> u in Active(m) || u == t {}
  }

  lemma ReleaseActive(m: Machine, t: Target)
    ensures Active(Release(m, t)) == Active(m) - {t}
  {
    forall u ensures u in Active(Release(m, t)) <==> u in Active(m) && u != t {}
  }

  /** Entering keeps the table in sync exactly when no other active halt shares
      the row. */
  lemma EnterKeepsSyncIff(s: State, c: Config, t: Target, e: Entry)
    requires InSync(s.machine, s.table)
    ensures InSync(HaltEntered(s, c, t, e).machine, HaltEntered(s, c, t, e).table) <==>
            KeysDiffer(Active(HaltEntered(s, c, t, e).machine))
    ensures WellKeyed(HaltEntered(s, c, t, e).table)
  {
    var after := HaltEntered(s, c, t, e);
    SyncNeedsDistinctKeys(s.machine, s.table);
    if c.autoHalt && !IsHalted(s.machine, t) {
      EnterActive(s.machine, t, e);
      UpsertTargets(s.table, t, e);
      assert t in Active(after.machine);
    }
  }

  lemma ClearKeepsSync(s: State, c: Config, t: Target, manual: bool)
    requires InSync(s.machine, s.table)
    ensures InSync(HaltCleared(s, c, t, manual).machine, HaltCleared(s, c, t, manual).table)
  {
    SyncNeedsDistinctKeys(s.machine, s.table);
    if MayClear(s.machine, c, t, true, manual) {
      ReleaseActive(s.machine, t);
      DeleteTargets(s.table, t);
      assert t in Active(s.machine);
    }
  }

  /** An account change keeps the table in sync exactly when automatic halts are
      enabled or the account was halted already: the row is written either way. */
  lemma AccountChangeKeepsSyncIff(s: State, c: Config, detail: string)
    requires InSync(s.machine, s.table)
    ensures InSync(AccountChanged(s, c, detail).machine, AccountChanged(s, c, detail).table) <==>
            c.autoHalt || s.machine.account.Some?
    ensures WellKeyed(AccountChanged(s, c, detail).table)
  {
    var e := Entry("account_changed", detail);
    EnterActive(s.machine, Account, e);
    UpsertTargets(s.table, Account, e);
    assert Account in Targets(AccountChanged(s, c, detail).table);
    assert Account in Active(s.machine) <==> s.machine.account.Some?;
    assert forall u: Target :: KeyOf(u) == AccountKey <==> u == Account;
  }

  /** The halts an engine ever enters. */
  function Entered(op: Op): set<Target> {
    if op.Enters? then {op.target} else if op.AccountChanges? then {Account} else {}
  }

  lemma StepKeepsSync(s: State, c: Config, op: Op, all: set<Target>)
    requires InSync(s.machine, s.table) && KeysDiffer(all) && Active(s.machine) <= all && Entered(op) <= all
    requires op.AccountChanges? ==> c.autoHalt
    ensures InSync(Step(s, c, op).machine, Step(s, c, op).table) && Active(Step(s, c, op).machine) <= all
  {
    match op
    case Enters(t, e) =>
      EnterKeepsSyncIff(s, c, t, e);
      EnterActive(s.machine, t, e);
    case Clears(t) =>
      ClearKeepsSync(s, c, t, false);
      ReleaseActive(s.machine, t);
    case ManualClears(t) =>
      ClearKeepsSync(s, c, t, true);
      ReleaseActive(s.machine, t);
    case AccountChanges(detail) =>
      AccountChangeKeepsSyncIff(s, c, detail);
      EnterActive(s.machine, Account, Entry("account_changed", detail));
    case Restarts => RestoredActive(s.table);
  }

  /** Over any run of enter, clear, account-change and restart steps, with
      automatic halts enabled and no two instruments sharing a row, the persisted
      halts are the active halts, so a restart at any point rebuilds them. */
  lemma {:induction false} HaltsSurviveRestarts(s: State, c: Config, ops: seq<Op>, all: set<Target>)
    requires InSync(s.machine, s.table) && KeysDiffer(all) && Active(s.machine) <= all && c.autoHalt
    requires forall i :: 0 <= i < |ops| ==> Entered(ops[i]) <= all
    ensures InSync(Run(s, c, ops).machine, Run(s, c, ops).table) && Active(Run(s, c, ops).machine) <= all
    ensures Active(Step(Run(s, c, ops), c, Restarts).machine) == Active(Run(s, c, ops).machine)
  {
    if ops != [] {
      var n := |ops| - 1;
      HaltsSurviveRestarts(s, c, ops[..n], all);
      StepKeepsSync(Run(s, c, ops[..n]), c, ops[n], all);
    }
    RestartRebuildsIffInSync(Run(s, c, ops), c);
  }

  /** Two instruments that differ only in details, say two expiries of a future,
      share a row: the second halt overwrites the first one's, and after a restart
      the first instrument trades again. */
  lemma SharedRowForgetsAHalt(c: Config, a: Instrument, b: Instrument, e: Entry)
    requires c.autoHalt && a != b && KeyOf(Of(a)) == KeyOf(Of(b))
    ensures var s := Run(State(NO_HALTS, map[]), c, [Enters(Of(a), e), Enters(Of(b), e)]);
            && IsHalted(s.machine, Of(a)) && IsHalted(s.machine, Of(b))
            && !IsHalted(Step(s, c, Restarts).machine, Of(a))
  {
    var empty, first, both := State(NO_HALTS, map[]), [Enters(Of(a), e)], [Enters(Of(a), e), Enters(Of(b), e)];
    assert both[..1] == first && first[..0] == [];
    var s := Run(empty, c, both);
    assert Run(empty, c, first) == State(Machine(map[a := e], None), map[KeyOf(Of(a)) := Row(Of(a), e)]);
    assert s.table == map[KeyOf(Of(b)) := Row(Of(b), e)];
    TargetsOfTable(s.table, Of(a));
  }

  /** With automatic halts disabled an account change halts nothing until the next
      restart, which restores the row it left. */
  lemma DisabledHaltReturns(c: Config, detail: string)
    requires !c.autoHalt
    ensures var s := Run(State(NO_HALTS, map[]), c, [AccountChanges(detail)]);
            !IsHalted(s.machine, Account) && IsHalted(Step(s, c, Restarts).machine, Account)
  {
    assert [AccountChanges(detail)][..0] == [];
  }

  // ---- Halt management after a reconciliation pass ----

  /** A position mismatch; the instrument is absent only defensively. */
  datatype Mismatch = Mismatch(instrument: Option<Instrument>, detail: string)

  function Mismatched(mismatches: seq<Mismatch>): set<Instrument> {
    set x | x in mismatches && x.instrument.Some? :: x.instrument.value
  }

  /** Clears, in listing order, the listed instruments that no longer mismatch. */
  function ClearReconciled(s: State, c: Config, listed: seq<Instrument>, keep: set<Instrument>): State {
    if listed == [] then s
    else
      var front, last := ClearReconciled(s, c, listed[..|listed| - 1], keep), listed[|listed| - 1];
      if last in keep then front else HaltCleared(front, c, Of(last), false)
  }

  function EnterMismatched(s: State, c: Config, mismatches: seq<Mismatch>): State {
    if mismatches == [] then s
    else
      var front, last := EnterMismatched(s, c, mismatches[..|mismatches| - 1]), mismatches[|mismatches| - 1];
      if last.instrument.None? then front
      else HaltEntered(front, c, Of(last.instrument.value), Entry("position_quantity", last.detail))
  }

  /** One call: targeted clears, entries, and on a clean pass a release of
      everything. `first` and `last` are the two listings of halted instruments. */
  function Manage(s: State, c: Config, mismatches: seq<Mismatch>, clean: bool, first: seq<Instrument>, last: seq<Instrument>): State {
    var entered := EnterMismatched(ClearReconciled(s, c, first, Mismatched(mismatches)), c, mismatches);
    if clean then HaltCleared(ClearReconciled(entered, c, last, {}), c, Account, false) else entered
  }

  ghost predicate Lists(listed: seq<Instrument>, m: Machine) {
    forall i :: i in listed <==> i in m.instruments
  }

  lemma {:induction false} ClearReconciledMachine(s: State, c: Config, listed: seq<Instrument>, keep: set<Instrument>)
    ensures var m := ClearReconciled(s, c, listed, keep).machine;
            && m.account == s.machine.account
            && (forall i :: i in m.instruments <==>
                  i in s.machine.instruments && !(c.automaticClear && i in listed && i !in keep))
            && (forall i :: i in m.instruments ==> m.instruments[i] == s.machine.instruments[i])
  {
    if listed != [] {
      var front, last := listed[..|listed| - 1], listed[|listed| - 1];
      ClearReconciledMachine(s, c, front, keep);
      assert forall i :: i in listed <==> i in front || i == last;
    }
  }

  lemma {:induction false} ClearReconciledSync(s: State, c: Config, listed: seq<Instrument>, keep: set<Instrument>)
    requires InSync(s.machine, s.table)
    ensures InSync(ClearReconciled(s, c, listed, keep).machine, ClearReconciled(s, c, listed, keep).table)
  {
    if listed != [] {
      ClearReconciledSync(s, c, listed[..|listed| - 1], keep);
      ClearKeepsSync(ClearReconciled(s, c, listed[..|listed| - 1], keep), c, Of(listed[|listed| - 1]), false);
    }
  }

  lemma MismatchedSnoc(mismatches: seq<Mismatch>)
    requires mismatches != []
    ensures var front, last := mismatches[..|mismatches| - 1], mismatches[|mismatches| - 1];
            Mismatched(mismatches) ==
              Mismatched(front) + (if last.instrument.Some? then {last.instrument.value} else {})
  {
    var front, last := mismatches[..|mismatches| - 1], mismatches[|mismatches| - 1];
    assert forall x :: x in mismatches <==> x in front || x == last;
  }

  lemma {:induction false} EnterMismatchedMachine(s: State, c: Config, mismatches: seq<Mismatch>)
    ensures var m := EnterMismatched(s, c, mismatches).machine;
            && m.account == s.machine.account
            && m.instruments.Keys ==
                 s.machine.instruments.Keys + (if c.autoHalt then Mismatched(mismatches) else {})
            && (forall i :: i in s.machine.instruments ==> m.instruments[i] == s.machine.instruments[i])
  {
    if mismatches == [] {
    } else {
      EnterMismatchedMachine(s, c, mismatches[..|mismatches| - 1]);
      MismatchedSnoc(mismatches);
    }
  }

  lemma {:induction false} EnterMismatchedSync(s: State, c: Config, mismatches: seq<Mismatch>)
    requires InSync(s.machine, s.table)
    ensures var t := EnterMismatched(s, c, mismatches);
            InSync(t.machine, t.table) <==> KeysDiffer(Active(t.machine))
  {
    var t := EnterMismatched(s, c, mismatches);
    if mismatches == [] {
      SyncNeedsDistinctKeys(s.machine, s.table);
    } else {
      var front, last := EnterMismatched(s, c, mismatches[..|mismatches| - 1]), mismatches[|mismatches| - 1];
      EnterMismatchedSync(s, c, mismatches[..|mismatches| - 1]);
      if last.instrument.Some? {
        var target, e := Of(last.instrument.value), Entry("position_quantity", last.detail);
        EnterActive(front.machine, target, e);
        if KeysDiffer(Active(t.machine)) {
          assert Active(front.machine) <= Active(t.machine);
          EnterKeepsSyncIff(front, c, target, e);
        }
      }
      if InSync(t.machine, t.table) { SyncNeedsDistinctKeys(t.machine, t.table); }
    }
  }

  /** After a pass in automatic mode the halted instruments are exactly those with
      a position mismatch (a halt that was there, or a new one when automatic halts
      are enabled), and the account halt survives exactly when the pass was not
      clean. In manual mode no pass clears anything. A kept halt keeps its entry. */
  lemma ManageIsExact(
    s: State, c: Config, mismatches: seq<Mismatch>, clean: bool, first: seq<Instrument>, last: seq<Instrument>)
    requires clean ==> mismatches == []
    requires Lists(first, s.machine)
    requires clean ==> Lists(last, EnterMismatched(ClearReconciled(s, c, first, Mismatched(mismatches)), c, mismatches).machine)
    ensures var m := Manage(s, c, mismatches, clean, first, last).machine;
            && (forall i :: i in m.instruments <==>
                  || (i in s.machine.instruments && (c.automaticClear ==> i in Mismatched(mismatches)))
                  || (c.autoHalt && i in Mismatched(mismatches)))
            && m.account == (if c.automaticClear && clean then None else s.machine.account)
            && (forall i :: i in m.instruments && i in s.machine.instruments ==>
                  m.instruments[i] == s.machine.instruments[i])
  {
    var cleared := ClearReconciled(s, c, first, Mismatched(mismatches));
    ClearReconciledMachine(s, c, first, Mismatched(mismatches));
    EnterMismatchedMachine(cleared, c, mismatches);
    var entered := EnterMismatched(cleared, c, mismatches);
    if clean { ClearReconciledMachine(entered, c, last, {}); }
  }

  /** A pass keeps the table in sync exactly when the halts it ends with have
      rows of their own. */
  lemma ManageKeepsSyncIff(
    s: State, c: Config, mismatches: seq<Mismatch>, clean: bool, first: seq<Instrument>, last: seq<Instrument>)
    requires (clean ==> mismatches == []) && InSync(s.machine, s.table)
    ensures var t := Manage(s, c, mismatches, clean, first, last);
            InSync(t.machine, t.table) <==> KeysDiffer(Active(t.machine))
  {
    var cleared := ClearReconciled(s, c, first, Mismatched(mismatches));
    ClearReconciledSync(s, c, first, Mismatched(mismatches));
    if clean {
      ClearReconciledSync(cleared, c, last, {});
      var released := ClearReconciled(cleared, c, last, {});
      ClearKeepsSync(released, c, Account, false);
      SyncNeedsDistinctKeys(HaltCleared(released, c, Account, false).machine, HaltCleared(released, c, Account, false).table);
    } else {
      EnterMismatchedSync(cleared, c, mismatches);
    }
  }

  // ---- Which halts each operation changes, and what they tell ----

  /** Entering halts its target when automatic halts are enabled; a clear after a clean
      pass releases it in automatic mode only, a requested clear in either mode; no
      other halt changes. */
  lemma StepEffects(s: State, c: Config, t: Target, u: Target, e: Entry)
    requires u != t
    ensures IsHalted(Step(s, c, Enters(t, e)).machine, t) <==> c.autoHalt || IsHalted(s.machine, t)
    ensures IsHalted(Step(s, c, Clears(t)).machine, t) <==> IsHalted(s.machine, t) && !c.automaticClear
    ensures !IsHalted(Step(s, c, ManualClears(t)).machine, t)
    ensures IsHalted(Step(s, c, Enters(t, e)).machine, u) <==> IsHalted(s.machine, u)
    ensures IsHalted(Step(s, c, Clears(t)).machine, u) <==> IsHalted(s.machine, u)
    ensures IsHalted(Step(s, c, ManualClears(t)).machine, u) <==> IsHalted(s.machine, u)
  {
  }

  function EntryOf(m: Machine, t: Target): Option<Entry> {
    if t.Account? then m.account
    else if t.instrument in m.instruments then Some(m.instruments[t.instrument])
    else None
  }

  /** A new halt keeps its reason and detail through a restart; one that was there
      keeps the ones it had. */
  lemma EntrySurvivesRestart(s: State, c: Config, t: Target, e: Entry)
    requires c.autoHalt && WellKeyed(s.table)
    ensures var entered := Step(s, c, Enters(t, e));
            && EntryOf(entered.machine, t) == (if IsHalted(s.machine, t) then EntryOf(s.machine, t) else Some(e))
            && (!IsHalted(s.machine, t) ==> EntryOf(Step(entered, c, Restarts).machine, t) == Some(e))
  {
    TargetsOfTable(Step(s, c, Enters(t, e)).table, t);
  }

  /** The row of an account change tells it, and so does the halt if it is new. */
  lemma AccountChangeIsTold(s: State, c: Config, detail: string)
    ensures var t := Step(s, c, AccountChanges(detail));
            && AccountKey in t.table && t.table[AccountKey].entry.reason == "account_changed"
            && t.table[AccountKey].entry.detail == detail
            && (c.autoHalt && s.machine.account == None ==> t.machine.account == Some(t.table[AccountKey].entry))
            && t.machine.instruments == s.machine.instruments
  {
  }

  /** A new instrument halt names the mismatch of quantities that caused it. */
  lemma {:induction false} NewHaltTellsTheMismatch(s: State, c: Config, mismatches: seq<Mismatch>, i: Instrument)
    requires c.autoHalt && i in Mismatched(mismatches) && i !in s.machine.instruments
    ensures var m := EnterMismatched(s, c, mismatches).machine;
            && i in m.instruments && m.instruments[i].reason == "position_quantity"
            && exists k :: 0 <= k < |mismatches| && mismatches[k] == Mismatch(Some(i), m.instruments[i].detail)
  {
    var front, last := mismatches[..|mismatches| - 1], mismatches[|mismatches| - 1];
    MismatchedSnoc(mismatches);
    EnterMismatchedMachine(s, c, front);
    if i in Mismatched(front) {
      NewHaltTellsTheMismatch(s, c, front, i);
      var k :| 0 <= k < |front| && front[k] == Mismatch(Some(i), EnterMismatched(s, c, front).machine.instruments[i].detail);
      assert mismatches[k] == front[k];
    } else {
      assert last == Mismatch(Some(i), last.detail);
    }
  }

  // ---- The engine, in place ----

  method ListInstruments(instruments: map<Instrument, Entry>) returns (listed: seq<Instrument>)
    ensures forall i :: i in listed <==> i in instruments
  {
    listed := [];
    var todo := instruments.Keys;
    while todo != {}
      invariant todo <= instruments.Keys
      invariant forall i :: i in listed <==> i in instruments && i !in todo
    {
      var i :| i in todo;
      todo, listed := todo - {i}, listed + [i];
    }
  }

  /** The rows not listed in `todo`. */
  function Done(table: Table, todo: set<Key>): Table {
    map k | k in table && k !in todo :: table[k]
  }

  lemma RestoreRow(done: Table, row: Row)
    requires WellKeyed(done) && KeyOf(row.target) !in done
    ensures Restored(done[KeyOf(row.target) := row]) == Restore(Restored(done), row.target, row.entry)
  {
    var more, was := done[KeyOf(row.target) := row], Restored(done);
    var now := Restored(more);
    forall i ensures i in now.instruments <==> i in was.instruments || Of(i) == row.target
      ensures i in was.instruments ==> now.instruments[i] == was.instruments[i]
    {
      TargetsOfTable(more, Of(i));
      TargetsOfTable(done, Of(i));
    }
    assert row.target.Of? ==> row.target.instrument in now.instruments;
  }

  lemma RestoreStep(table: Table, todo: set<Key>, k: Key)
    requires WellKeyed(table) && k in todo && k in table
    ensures Restored(Done(table, todo - {k})) == Restore(Restored(Done(table, todo)), table[k].target, table[k].entry)
  {
    assert Done(table, todo - {k}) == Done(table, todo)[k := table[k]];
    RestoreRow(Done(table, todo), table[k]);
  }

  class Engine {
    const machine: HaltStateMachine
    var table: Table

    ghost function Model(): State
      reads this, machine
    {
      State(machine.Model(), table)
    }

    constructor (c: Config, persisted: Table)
      ensures fresh(machine) && machine.config == c && Model() == State(NO_HALTS, persisted)
    {
      machine := new HaltStateMachine(c);
      table := persisted;
    }

    method EnterHalt(t: Target, e: Entry)
      modifies this, machine
      ensures Model() == HaltEntered(old(Model()), machine.config, t, e)
    {
      var entered := machine.EnterHalt(t, e);
      if !entered { return; }
      table := table[KeyOf(t) := Row(t, e)];
    }

    method ClearHalt(t: Target) returns (cleared: bool)
      modifies this, machine
      ensures Model() == HaltCleared(old(Model()), machine.config, t, false)
      ensures cleared <==> MayClear(old(machine.Model()), machine.config, t, true, false)
    {
      cleared := machine.TryClearHalt(t, true, false);
      if cleared { table := table - {KeyOf(t)}; }
    }

    /** An explicit request passes both gates, so it clears in either mode. */
    method ManualClearHalt(t: Target) returns (cleared: bool)
      modifies this, machine
      ensures Model() == HaltCleared(old(Model()), machine.config, t, true)
      ensures cleared <==> IsHalted(old(machine.Model()), t)
    {
      cleared := machine.TryClearHalt(t, true, true);
      if cleared { table := table - {KeyOf(t)}; }
    }

    method OnAccountChanged(detail: string)
      modifies this, machine
      ensures Model() == AccountChanged(old(Model()), machine.config, detail)
    {
      var e := Entry("account_changed", detail);
      var entered := machine.EnterHalt(Account, e);
      table := table[AccountKey := Row(Account, e)];
    }

    method ManageHaltState(mismatches: seq<Mismatch>, clean: bool)
      returns (ghost first: seq<Instrument>, ghost last: seq<Instrument>)
      modifies this, machine
      ensures Lists(first, old(machine.Model()))
      ensures clean ==> Lists(last,
                EnterMismatched(ClearReconciled(old(Model()), machine.config, first, Mismatched(mismatches)),
                  machine.config, mismatches).machine)
      ensures Model() == Manage(old(Model()), machine.config, mismatches, clean, first, last)
    {
      var listed := ListInstruments(machine.instruments);
      first, last := listed, [];
      ClearListed(listed, Mismatched(mismatches));
      EnterListed(mismatches);
      if clean {
        listed := ListInstruments(machine.instruments);
        last := listed;
        ClearListed(listed, {});
        var cleared := ClearHalt(Account);
      }
    }

    method ClearListed(listed: seq<Instrument>, keep: set<Instrument>)
      modifies this, machine
      ensures Model() == ClearReconciled(old(Model()), machine.config, listed, keep)
    {
      for i := 0 to |listed|
        invariant Model() == ClearReconciled(old(Model()), machine.config, listed[..i], keep)
      {
        assert listed[..i + 1][..i] == listed[..i];
        if listed[i] !in keep { var cleared := ClearHalt(Of(listed[i])); }
      }
      assert listed[..|listed|] == listed;
    }

    method EnterListed(mismatches: seq<Mismatch>)
      modifies this, machine
      ensures Model() == EnterMismatched(old(Model()), machine.config, mismatches)
    {
      for i := 0 to |mismatches|
        invariant Model() == EnterMismatched(old(Model()), machine.config, mismatches[..i])
      {
        assert mismatches[..i + 1][..i] == mismatches[..i];
        var x := mismatches[i];
        if x.instrument.Some? { EnterHalt(Of(x.instrument.value), Entry("position_quantity", x.detail)); }
      }
      assert mismatches[..|mismatches|] == mismatches;
    }

    /** Rehydration at connect time, row by row, whatever the configuration. */
    method RestoreHaltsFromStore()
      requires WellKeyed(table) && machine.Model() == NO_HALTS
      modifies machine
      ensures Model() == Step(old(Model()), machine.config, Restarts)
    {
      var rows, todo := table, table.Keys;
      while todo != {}
        modifies machine
        invariant todo <= rows.Keys
        invariant machine.Model() == Restored(Done(rows, todo))
      {
        var k :| k in todo;
        RestoreStep(rows, todo, k);
        todo := todo - {k};
        var restored := machine.RestoreHalt(rows[k].target, rows[k].entry);
      }
      assert Done(rows, {}) == rows;
    }
  }
}
