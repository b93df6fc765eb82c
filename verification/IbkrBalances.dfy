/** IBKR balances: the account summary arrives one tag at a time. A live
    accumulator recomputes a balance at every tag; a poll folds the whole summary
    in one go. Both use the same rule. */
module IbkrBalances {
  import opened Common

  const BALANCE_TAGS := {"TotalCashValue", "NetLiquidation", "CashBalance", "AvailableFunds"}

  /** One account value; the amount is absent when empty or not a number, the
      currency comes stripped of blanks. */
  datatype Value = Value(tag: string, account: string, currency: string, amount: Option<int>)

  datatype Balance = Balance(free: int, used: int, total: int)

  type Tags = map<string, int>

  /** Account and currency. */
  type Key = (string, string)

  function Currency(v: Value): string {
    if v.currency == "" then "USD" else v.currency
  }

  function Upper(c: char): char {
    if 'a' <= c <= 'z' then c - 'a' + 'A' else c
  }

  /** The rollup pseudo-currency, in any case. */
  predicate IsBase(currency: string) {
    |currency| == 4 && Upper(currency[0]) == 'B' && Upper(currency[1]) == 'A'
    && Upper(currency[2]) == 'S' && Upper(currency[3]) == 'E'
  }

  function Get(tags: Tags, tag: string): Option<int> {
    if tag in tags then Some(tags[tag]) else None
  }

  /** Python's `a ?? b` chain of the rule. */
  function Or(a: Option<int>, b: Option<int>): Option<int> {
    if a.Some? then a else b
  }

  /** The shared rule; absent when no total can be told. */
  function BalanceFromTags(tags: Tags): (r: Option<Balance>)
    ensures r.Some? <==> "NetLiquidation" in tags || "TotalCashValue" in tags || "CashBalance" in tags
    ensures r.Some? ==> r.value.free + r.value.used == r.value.total
    ensures r.Some? ==> r.value.free <= r.value.total && r.value.used >= 0
  {
    var total := Or(Or(Get(tags, "NetLiquidation"), Get(tags, "TotalCashValue")), Get(tags, "CashBalance"));
    if total.None? then None
    else
      var free := Or(Or(Or(Get(tags, "AvailableFunds"), Get(tags, "TotalCashValue")), Get(tags, "CashBalance")), total);
      var clamped := if free.value > total.value then total.value else free.value;
      Some(Balance(clamped, total.value - clamped, total.value))
  }

  /** The rule reads four tags and nothing else. */
  lemma RuleReadsFourTags(a: Tags, b: Tags)
    requires forall t :: t in BALANCE_TAGS ==> Get(a, t) == Get(b, t)
    ensures BalanceFromTags(a) == BalanceFromTags(b)
  {
    assert "NetLiquidation" in BALANCE_TAGS && "TotalCashValue" in BALANCE_TAGS;
    assert "CashBalance" in BALANCE_TAGS && "AvailableFunds" in BALANCE_TAGS;
  }

  /** The first of these tags that has a value. */
  function FirstKnown(tags: Tags, order: seq<string>): Option<int> {
    if order == [] then None
    else if order[0] in tags then Some(tags[order[0]])
    else FirstKnown(tags, order[1..])
  }

  /** The rule reads the total from the first known of three tags, and what is free
      from the first known of three others, never more than the total. */
  lemma RuleReadsInOrder(tags: Tags)
    ensures var total := FirstKnown(tags, ["NetLiquidation", "TotalCashValue", "CashBalance"]);
            var free := FirstKnown(tags, ["AvailableFunds", "TotalCashValue", "CashBalance"]);
            && (total.None? ==> BalanceFromTags(tags) == None)
            && (total.Some? ==>
                  && BalanceFromTags(tags).Some? && BalanceFromTags(tags).value.total == total.value
                  && BalanceFromTags(tags).value.free ==
                       if free.Some? && free.value < total.value then free.value else total.value)
  {
    var t1, t2 := ["TotalCashValue", "CashBalance"], ["CashBalance"];
    assert ["NetLiquidation", "TotalCashValue", "CashBalance"][1..] == t1;
    assert ["AvailableFunds", "TotalCashValue", "CashBalance"][1..] == t1;
    assert t1[1..] == t2 && t2[1..] == [];
    assert FirstKnown(tags, t2) == Get(tags, "CashBalance");
    assert FirstKnown(tags, t1) == Or(Get(tags, "TotalCashValue"), Get(tags, "CashBalance"));
  }

  // ---- What the latest values say ----

  /** A live value counts when it is one of the four tags, in a real currency. */
  predicate Counts(v: Value) {
    v.tag in BALANCE_TAGS && !IsBase(Currency(v)) && v.amount.Some?
  }

  function KeyOf(v: Value, managed: string): Key {
    (if v.account != "" then v.account else managed, Currency(v))
  }

  /** The latest value of a tag in the whole history of an account and currency. */
  function Latest(log: seq<Value>, managed: string, key: Key, tag: string): Option<int> {
    if log == [] then None
    else
      var last := log[|log| - 1];
      if Counts(last) && KeyOf(last, managed) == key && last.tag == tag then last.amount
      else Latest(log[..|log| - 1], managed, key, tag)
  }

  lemma LatestSnoc(log: seq<Value>, v: Value, managed: string, key: Key, tag: string)
    ensures Latest(log + [v], managed, key, tag) ==
              if Counts(v) && KeyOf(v, managed) == key && v.tag == tag then v.amount
              else Latest(log, managed, key, tag)
  {
    assert (log + [v])[..|log|] == log;
  }

  // ---- The accumulator ----

  datatype State = State(tags: map<Key, Tags>, last: map<Key, Balance>, published: seq<(Key, Balance)>)

  function Bucket(tags: map<Key, Tags>, key: Key): Tags {
    if key in tags then tags[key] else map[]
  }

  function Noted(tags: map<Key, Tags>, v: Value, managed: string): map<Key, Tags> {
    var key := KeyOf(v, managed);
    if Counts(v) then tags[key := Bucket(tags, key)[v.tag := v.amount.value]] else tags
  }

  function NotedAll(values: seq<Value>, managed: string): map<Key, Tags> {
    if values == [] then map[] else Noted(NotedAll(values[..|values| - 1], managed), values[|values| - 1], managed)
  }

  function Known(tags: map<Key, Tags>): map<Key, Balance> {
    map k | k in tags && BalanceFromTags(tags[k]).Some? :: BalanceFromTags(tags[k]).value
  }

  /** The seed fills the tags and remembers the aggregates without publishing. */
  function Seed(values: seq<Value>, managed: string): State {
    State(NotedAll(values, managed), Known(NotedAll(values, managed)), [])
  }

  function Find(last: map<Key, Balance>, key: Key): Option<Balance> {
    if key in last then Some(last[key]) else None
  }

  /** A live value publishes the recomputed balance when it differs from the last one. */
  function Step(s: State, v: Value, managed: string): State {
    var key, tags := KeyOf(v, managed), Noted(s.tags, v, managed);
    var balance := BalanceFromTags(Bucket(tags, key));
    if !Counts(v) then s
    else if balance.None? || Find(s.last, key) == balance then s.(tags := tags)
    else State(tags, s.last[key := balance.value], s.published + [(key, balance.value)])
  }

  function Run(seed: seq<Value>, events: seq<Value>, managed: string): State {
    if events == [] then Seed(seed, managed)
    else Step(Run(seed, events[..|events| - 1], managed), events[|events| - 1], managed)
  }

  // ---- The accumulator follows the latest values ----

  ghost predicate TagsFollow(tags: map<Key, Tags>, log: seq<Value>, managed: string) {
    forall k: Key, t :: t in BALANCE_TAGS ==> Get(Bucket(tags, k), t) == Latest(log, managed, k, t)
  }

  lemma NotedFollows(tags: map<Key, Tags>, log: seq<Value>, v: Value, managed: string)
    requires TagsFollow(tags, log, managed)
    ensures TagsFollow(Noted(tags, v, managed), log + [v], managed)
  {
    forall k: Key, t | t in BALANCE_TAGS
      ensures Get(Bucket(Noted(tags, v, managed), k), t) == Latest(log + [v], managed, k, t)
    {
      LatestSnoc(log, v, managed, k, t);
      assert Get(Bucket(tags, k), t) == Latest(log, managed, k, t);
    }
  }

  lemma {:induction false} NotedAllFollows(values: seq<Value>, managed: string)
    ensures TagsFollow(NotedAll(values, managed), values, managed)
  {
    if values != [] {
      var n := |values| - 1;
      NotedAllFollows(values[..n], managed);
      NotedFollows(NotedAll(values[..n], managed), values[..n], values[n], managed);
      assert values == values[..n] + [values[n]];
    }
  }

  /** The remembered balance of every account and currency is the rule's. */
  ghost predicate LastFollows(s: State) {
    forall k: Key :: Find(s.last, k) == BalanceFromTags(Bucket(s.tags, k))
  }

  lemma StepFollows(s: State, v: Value, managed: string)
    requires LastFollows(s)
    ensures LastFollows(Step(s, v, managed))
    ensures Step(s, v, managed).tags == Noted(s.tags, v, managed)
  {
    var t, key := Step(s, v, managed), KeyOf(v, managed);
    forall k: Key ensures Find(t.last, k) == BalanceFromTags(Bucket(t.tags, k)) {
      assert Find(s.last, k) == BalanceFromTags(Bucket(s.tags, k));
      if k == key && Counts(v) { TagsOnlyGrow(Bucket(s.tags, k), v.tag, v.amount.value); }
    }
  }

  lemma TagsOnlyGrow(tags: Tags, tag: string, amount: int)
    ensures BalanceFromTags(tags).Some? ==> BalanceFromTags(tags[tag := amount]).Some?
  {
  }

  lemma {:induction false} RunFollows(seed: seq<Value>, events: seq<Value>, managed: string)
    ensures LastFollows(Run(seed, events, managed))
    ensures TagsFollow(Run(seed, events, managed).tags, seed + events, managed)
  {
    if events == [] {
      NotedAllFollows(seed, managed);
      assert seed + events == seed;
    } else {
      var n := |events| - 1;
      var s := Run(seed, events[..n], managed);
      RunFollows(seed, events[..n], managed);
      StepFollows(s, events[n], managed);
      NotedFollows(s.tags, seed + events[..n], events[n], managed);
      assert seed + events == seed + events[..n] + [events[n]];
    }
  }

  // ---- The poll ----

  /** A poll reads any tag of any real currency, whatever its account. */
  predicate Polls(v: Value) {
    v.tag != "" && !IsBase(Currency(v)) && v.amount.Some?
  }

  function Grouped(values: seq<Value>): map<string, Tags> {
    if values == [] then map[]
    else
      var front, last := Grouped(values[..|values| - 1]), values[|values| - 1];
      var c := Currency(last);
      if Polls(last) then front[c := (if c in front then front[c] else map[])[last.tag := last.amount.value]]
      else front
  }

  function Polled(values: seq<Value>): map<string, Balance> {
    var groups := Grouped(values);
    map c | c in groups && BalanceFromTags(groups[c]).Some? :: BalanceFromTags(groups[c]).value
  }

  method FetchBalances(values: seq<Value>) returns (result: map<string, Balance>)
    ensures result == Polled(values)
  {
    var groups: map<string, Tags> := map[];
    for i := 0 to |values|
      invariant groups == Grouped(values[..i])
    {
      assert values[..i + 1][..i] == values[..i];
      var v := values[i];
      if Polls(v) {
        var c := Currency(v);
        groups := groups[c := (if c in groups then groups[c] else map[])[v.tag := v.amount.value]];
      }
    }
    assert values[..|values|] == values;
    result := map[];
    var todo := groups.Keys;
    while todo != {}
      invariant todo <= groups.Keys
      invariant forall c :: c in result <==> c in groups && c !in todo && BalanceFromTags(groups[c]).Some?
      invariant forall c :: c in result ==> BalanceFromTags(groups[c]) == Some(result[c])
    {
      var c :| c in todo;
      todo := todo - {c};
      var balance := BalanceFromTags(groups[c]);
      if balance.Some? { result := result[c := balance.value]; }
    }
  }

  /** The latest value of a tag in a polled summary. */
  function LatestPolled(values: seq<Value>, currency: string, tag: string): Option<int> {
    if values == [] then None
    else
      var last := values[|values| - 1];
      if Polls(last) && Currency(last) == currency && last.tag == tag then last.amount
      else LatestPolled(values[..|values| - 1], currency, tag)
  }

  lemma {:induction false} GroupedFollows(values: seq<Value>, currency: string, tag: string)
    ensures var groups := Grouped(values);
            Get(if currency in groups then groups[currency] else map[], tag) == LatestPolled(values, currency, tag)
  {
    if values != [] { GroupedFollows(values[..|values| - 1], currency, tag); }
  }

  // ---- The summary a poll of one account reads ----

  function Without(rows: seq<Value>, v: Value): seq<Value> {
    if rows == [] then []
    else
      var front, last := Without(rows[..|rows| - 1], v), rows[|rows| - 1];
      if Currency(last) == Currency(v) && last.tag == v.tag then front else front + [last]
  }

  /** The venue keeps one row per account, currency and tag: a new value replaces
      the one before, whether or not its amount can be used. */
  function Summary(log: seq<Value>, managed: string, account: string): seq<Value> {
    if log == [] then []
    else
      var rows, last := Summary(log[..|log| - 1], managed, account), log[|log| - 1];
      if KeyOf(last, managed).0 == account then Without(rows, last) + [last] else rows
  }

  /** The latest value of a tag, usable or not. */
  function LatestRow(log: seq<Value>, managed: string, key: Key, tag: string): Option<Value> {
    if log == [] then None
    else
      var last := log[|log| - 1];
      if KeyOf(last, managed) == key && last.tag == tag then Some(last)
      else LatestRow(log[..|log| - 1], managed, key, tag)
  }

  function Usable(row: Option<Value>): Option<int> {
    if row.Some? && Counts(row.value) then row.value.amount else None
  }

  /** The tag once had a usable value and its latest value is not one. */
  predicate Stale(log: seq<Value>, managed: string, key: Key, tag: string) {
    Latest(log, managed, key, tag).Some? && Usable(LatestRow(log, managed, key, tag)).None?
  }

  lemma {:induction false} LatestOfUsable(log: seq<Value>, managed: string, key: Key, tag: string)
    ensures Usable(LatestRow(log, managed, key, tag)).Some? ==>
              Latest(log, managed, key, tag) == Usable(LatestRow(log, managed, key, tag))
  {
    if log != [] { LatestOfUsable(log[..|log| - 1], managed, key, tag); }
  }

  lemma PolledSnoc(rows: seq<Value>, v: Value, currency: string, tag: string)
    ensures LatestPolled(rows + [v], currency, tag) ==
              if Polls(v) && Currency(v) == currency && v.tag == tag then v.amount
              else LatestPolled(rows, currency, tag)
  {
    assert (rows + [v])[..|rows|] == rows;
  }

  lemma {:induction false} WithoutForgets(rows: seq<Value>, v: Value, currency: string, tag: string)
    ensures LatestPolled(Without(rows, v), currency, tag) ==
              if Currency(v) == currency && v.tag == tag then None else LatestPolled(rows, currency, tag)
  {
    if rows != [] {
      var n := |rows| - 1;
      WithoutForgets(rows[..n], v, currency, tag);
      PolledSnoc(Without(rows[..n], v), rows[n], currency, tag);
    }
  }

  lemma RowReplaced(rows: seq<Value>, v: Value, row: Option<Value>, currency: string, tag: string)
    requires tag in BALANCE_TAGS && LatestPolled(rows, currency, tag) == Usable(row)
    ensures LatestPolled(Without(rows, v) + [v], currency, tag) ==
            Usable(if Currency(v) == currency && v.tag == tag then Some(v) else row)
  {
    WithoutForgets(rows, v, currency, tag);
    PolledSnoc(Without(rows, v), v, currency, tag);
  }

  lemma {:induction false} SummaryShowsLatest(
    log: seq<Value>, managed: string, account: string, currency: string, tag: string)
    requires tag in BALANCE_TAGS
    ensures LatestPolled(Summary(log, managed, account), currency, tag) ==
            Usable(LatestRow(log, managed, (account, currency), tag))
  {
    if log != [] {
      var front, v := log[..|log| - 1], log[|log| - 1];
      SummaryShowsLatest(front, managed, account, currency, tag);
      if KeyOf(v, managed).0 == account {
        RowReplaced(Summary(front, managed, account), v, LatestRow(front, managed, (account, currency), tag), currency, tag);
      }
    }
  }

  /** Poll and stream read the same value of a tag exactly when it is not stale: the
      stream keeps the last usable value, the poll passes over the unusable row. */
  lemma SameTagIffFresh(log: seq<Value>, managed: string, account: string, currency: string, tag: string)
    requires tag in BALANCE_TAGS
    ensures LatestPolled(Summary(log, managed, account), currency, tag) == Latest(log, managed, (account, currency), tag)
            <==> !Stale(log, managed, (account, currency), tag)
  {
    SummaryShowsLatest(log, managed, account, currency, tag);
    LatestOfUsable(log, managed, (account, currency), tag);
  }

  ghost predicate Fresh(log: seq<Value>, managed: string, key: Key) {
    forall t :: t in BALANCE_TAGS ==> !Stale(log, managed, key, t)
  }

  /** A seed is itself such a summary, one row each, so nothing in it is stale. */
  ghost predicate OneRowEach(rows: seq<Value>, managed: string) {
    forall i, j :: 0 <= i < j < |rows| ==> KeyOf(rows[i], managed) != KeyOf(rows[j], managed) || rows[i].tag != rows[j].tag
  }

  lemma {:induction false} LatestHasRow(log: seq<Value>, managed: string, key: Key, tag: string)
    requires Latest(log, managed, key, tag).Some?
    ensures exists i :: 0 <= i < |log| && KeyOf(log[i], managed) == key && log[i].tag == tag
  {
    var n := |log| - 1;
    if !(KeyOf(log[n], managed) == key && log[n].tag == tag) { LatestHasRow(log[..n], managed, key, tag); }
  }

  lemma {:induction false} SeedIsFresh(seed: seq<Value>, managed: string, key: Key, tag: string)
    requires OneRowEach(seed, managed)
    ensures !Stale(seed, managed, key, tag)
  {
    if seed != [] {
      var n := |seed| - 1;
      SeedIsFresh(seed[..n], managed, key, tag);
      if KeyOf(seed[n], managed) == key && seed[n].tag == tag && Latest(seed[..n], managed, key, tag).Some? {
        LatestHasRow(seed[..n], managed, key, tag);
      }
    }
  }

  // ---- Streamed and polled ----

  function Row(mirror: map<string, Balance>, currency: string): Option<Balance> {
    if currency in mirror then Some(mirror[currency]) else None
  }

  function FindPolled(values: seq<Value>, currency: string): Option<Balance> {
    Row(Polled(values), currency)
  }

  function Group(values: seq<Value>, currency: string): Tags {
    if currency in Grouped(values) then Grouped(values)[currency] else map[]
  }

  /** Both views are the shared rule, each on the tags it reads. */
  lemma BothFollowTheRule(
    seed: seq<Value>, events: seq<Value>, managed: string, account: string, currency: string)
    ensures var s, log := Run(seed, events, managed), seed + events;
            var streamed, polled := Bucket(s.tags, (account, currency)), Group(Summary(log, managed, account), currency);
            && Find(s.last, (account, currency)) == BalanceFromTags(streamed)
            && FindPolled(Summary(log, managed, account), currency) == BalanceFromTags(polled)
            && (forall t :: t in BALANCE_TAGS ==>
                  && Get(streamed, t) == Latest(log, managed, (account, currency), t)
                  && Get(polled, t) == (if Stale(log, managed, (account, currency), t) then None else Get(streamed, t)))
  {
    RunFollows(seed, events, managed);
    var log := seed + events;
    var streamed, rows := Bucket(Run(seed, events, managed).tags, (account, currency)), Summary(log, managed, account);
    forall t | t in BALANCE_TAGS
      ensures Get(streamed, t) == Latest(log, managed, (account, currency), t)
      ensures Get(Group(rows, currency), t) ==
                if Stale(log, managed, (account, currency), t) then None else Get(streamed, t)
    {
      GroupedFollows(rows, currency, t);
      SameTagIffFresh(log, managed, account, currency, t);
      SummaryShowsLatest(log, managed, account, currency, t);
    }
  }

  /** After the seed and any events, the last balance of every currency of an account
      with no stale tag is what a poll of that account returns at that moment, and
      the currency has one exactly when the other does. */
  lemma StreamedEqualsPolled(
    seed: seq<Value>, events: seq<Value>, managed: string, account: string, currency: string)
    requires Fresh(seed + events, managed, (account, currency))
    ensures Find(Run(seed, events, managed).last, (account, currency)) ==
            FindPolled(Summary(seed + events, managed, account), currency)
  {
    BothFollowTheRule(seed, events, managed, account, currency);
    RuleReadsFourTags(Bucket(Run(seed, events, managed).tags, (account, currency)),
                      Group(Summary(seed + events, managed, account), currency));
  }

  const TOTAL_TAGS := {"NetLiquidation", "TotalCashValue", "CashBalance"}

  /** A balance the stream still shows is gone from the poll exactly when every
      total that was ever usable is stale. */
  lemma PollLosesBalanceIff(
    seed: seq<Value>, events: seq<Value>, managed: string, account: string, currency: string)
    requires Find(Run(seed, events, managed).last, (account, currency)).Some?
    ensures FindPolled(Summary(seed + events, managed, account), currency).None?
            <==> forall t :: t in TOTAL_TAGS && Latest(seed + events, managed, (account, currency), t).Some? ==>
                               Stale(seed + events, managed, (account, currency), t)
  {
    BothFollowTheRule(seed, events, managed, account, currency);
    assert TOTAL_TAGS <= BALANCE_TAGS;
  }

  lemma EmptyKeepsLatest(usable: Value, managed: string, tag: string)
    requires Counts(usable)
    ensures Latest([usable] + [usable.(amount := None)], managed, KeyOf(usable, managed), tag) ==
            if tag == usable.tag then usable.amount else None
  {
    LatestSnoc([usable], usable.(amount := None), managed, KeyOf(usable, managed), tag);
    assert [usable][..0] == [];
  }

  lemma OneTotalSeeded(usable: Value, managed: string)
    requires Counts(usable) && usable.tag == "NetLiquidation"
    ensures Find(Seed([usable], managed).last, KeyOf(usable, managed)) ==
            Some(Balance(usable.amount.value, 0, usable.amount.value))
  {
    assert [usable][..0] == [];
    assert NotedAll([usable], managed) == Noted(map[], usable, managed);
  }

  /** Such a run: the only total of an account turns empty. The stream keeps the old
      balance, the poll has none. */
  lemma EmptyTotalDiverges(account: string, currency: string, managed: string, amount: int)
    requires account != "" && currency != "" && !IsBase(currency)
    ensures var seed := [Value("NetLiquidation", account, currency, Some(amount))];
            var events := [Value("NetLiquidation", account, currency, None)];
            && Find(Run(seed, events, managed).last, (account, currency)) == Some(Balance(amount, 0, amount))
            && FindPolled(Summary(seed + events, managed, account), currency) == None
  {
    var usable := Value("NetLiquidation", account, currency, Some(amount));
    var empty := usable.(amount := None);
    OneTotalSeeded(usable, managed);
    assert Run([usable], [empty], managed) == Seed([usable], managed) by { assert [empty][..0] == []; }
    forall t | t in TOTAL_TAGS ensures Latest([usable] + [empty], managed, (account, currency), t) ==
                                       if t == "NetLiquidation" then Some(amount) else None
    {
      EmptyKeepsLatest(usable, managed, t);
    }
    assert LatestRow([usable] + [empty], managed, (account, currency), "NetLiquidation") == Some(empty);
    PollLosesBalanceIff([usable], [empty], managed, account, currency);
  }

  // ---- Where a value is filed ----

  /** "BASE", in any mix of cases. */
  predicate SpellsBase(currency: string) {
    && |currency| == 4 && currency[0] in {'B', 'b'} && currency[1] in {'A', 'a'}
    && currency[2] in {'S', 's'} && currency[3] in {'E', 'e'}
  }

  lemma BaseIsSpelled(currency: string)
    ensures IsBase(currency) <==> SpellsBase(currency)
  {
  }

  /** A rollup row changes neither view. */
  lemma RollupIsIgnored(s: State, values: seq<Value>, v: Value, managed: string)
    requires SpellsBase(v.currency)
    ensures Step(s, v, managed) == s && Grouped(values + [v]) == Grouped(values)
  {
    BaseIsSpelled(v.currency);
    assert (values + [v])[..|values|] == values;
  }

  /** Nor does a value that is empty or unreadable, and the stream reads four tags. */
  lemma UselessValue(s: State, values: seq<Value>, v: Value, managed: string)
    ensures v.amount.None? || v.tag !in BALANCE_TAGS ==> Step(s, v, managed) == s
    ensures v.amount.None? || v.tag == "" ==> Grouped(values + [v]) == Grouped(values)
  {
    assert (values + [v])[..|values|] == values;
  }

  /** Any other value is filed under its account, or the managed one when it names
      none, and its currency, or US dollars when it names none. */
  lemma ValueIsFiled(s: State, values: seq<Value>, v: Value, managed: string, account: string, currency: string)
    requires v.tag in BALANCE_TAGS && v.amount.Some? && !SpellsBase(currency)
    requires if v.account == "" then account == managed else account == v.account
    requires if v.currency == "" then currency == "USD" else currency == v.currency
    ensures Get(Bucket(Step(s, v, managed).tags, (account, currency)), v.tag) == v.amount
    ensures Get(Group(values + [v], currency), v.tag) == v.amount
  {
    BaseIsSpelled(currency);
    assert (values + [v])[..|values|] == values;
  }

  // ---- What is published ----

  /** An event publishes exactly when it changed the balance of its account and
      currency, and it changes no other. */
  lemma PublishesOnlyChanges(seed: seq<Value>, events: seq<Value>, v: Value, managed: string, key: Key)
    ensures var s, t := Run(seed, events, managed), Run(seed, events + [v], managed);
            && (Find(s.last, key) != Find(t.last, key) ==>
                  key == KeyOf(v, managed) && key in t.last && t.published == s.published + [(key, t.last[key])])
            && (Find(s.last, KeyOf(v, managed)) == Find(t.last, KeyOf(v, managed)) ==> t.published == s.published)
  {
    assert (events + [v])[..|events|] == events;
  }

  /** The engine's balance row per currency; its rows carry no account. */
  function Mirrored(mirror: map<string, Balance>, published: seq<(Key, Balance)>): map<string, Balance> {
    if published == [] then mirror
    else
      var last := published[|published| - 1];
      Mirrored(mirror, published[..|published| - 1])[last.0.1 := last.1]
  }

  lemma MirroredSnoc(mirror: map<string, Balance>, published: seq<(Key, Balance)>, p: (Key, Balance))
    ensures Mirrored(mirror, published + [p]) == Mirrored(mirror, published)[p.0.1 := p.1]
  {
    assert (published + [p])[..|published|] == published;
  }

  ghost predicate OnlyAccount(values: seq<Value>, managed: string, account: string) {
    forall i :: 0 <= i < |values| && Counts(values[i]) ==> KeyOf(values[i], managed).0 == account
  }

  /** With one account on the stream, a mirror that starts from a poll at the seed
      equals a poll at any later moment at which no tag is stale. */
  lemma MirrorEqualsPoll(
    seed: seq<Value>, events: seq<Value>, managed: string, account: string, currency: string)
    requires OnlyAccount(events, managed, account)
    requires Fresh(seed, managed, (account, currency)) && Fresh(seed + events, managed, (account, currency))
    ensures Row(Mirrored(Polled(Summary(seed, managed, account)), Run(seed, events, managed).published), currency) ==
            FindPolled(Summary(seed + events, managed, account), currency)
  {
    assert seed + [] == seed;
    StreamedEqualsPolled(seed, [], managed, account, currency);
    MirrorFollowsLast(seed, events, managed, account, Polled(Summary(seed, managed, account)), currency);
    StreamedEqualsPolled(seed, events, managed, account, currency);
  }

  lemma StepMirrors(s: State, v: Value, managed: string, account: string, start: map<string, Balance>, currency: string)
    requires Row(Mirrored(start, s.published), currency) == Find(s.last, (account, currency))
    requires Counts(v) ==> KeyOf(v, managed).0 == account
    ensures var t := Step(s, v, managed);
            Row(Mirrored(start, t.published), currency) == Find(t.last, (account, currency))
  {
    var t, key := Step(s, v, managed), KeyOf(v, managed);
    if t.published != s.published { MirroredSnoc(start, s.published, (key, t.last[key])); }
  }

  lemma {:induction false} MirrorFollowsLast(
    seed: seq<Value>, events: seq<Value>, managed: string, account: string, start: map<string, Balance>, currency: string)
    requires OnlyAccount(events, managed, account)
    requires Row(start, currency) == Find(Run(seed, [], managed).last, (account, currency))
    ensures Row(Mirrored(start, Run(seed, events, managed).published), currency) ==
            Find(Run(seed, events, managed).last, (account, currency))
  {
    if events != [] {
      var n := |events| - 1;
      MirrorFollowsLast(seed, events[..n], managed, account, start, currency);
      StepMirrors(Run(seed, events[..n], managed), events[n], managed, account, start, currency);
    }
  }

  /** The stream is not filtered by account and the mirror's rows carry none: whenever
      an event changes a balance, its account's balance takes the currency's row, which
      is then an account's own exactly when the event was of that account or the two
      accounts hold equal balances. */
  lemma ForeignAccountLeaks(
    seed: seq<Value>, events: seq<Value>, v: Value, managed: string, account: string, start: map<string, Balance>)
    requires Find(Run(seed, events, managed).last, KeyOf(v, managed)) !=
             Find(Run(seed, events + [v], managed).last, KeyOf(v, managed))
    ensures var t, c := Run(seed, events + [v], managed), Currency(v);
            && Row(Mirrored(start, t.published), c) == Find(t.last, KeyOf(v, managed))
            && (Row(Mirrored(start, t.published), c) == Find(t.last, (account, c))
                <==> KeyOf(v, managed).0 == account || Find(t.last, KeyOf(v, managed)) == Find(t.last, (account, c)))
  {
    var s, t, key := Run(seed, events, managed), Run(seed, events + [v], managed), KeyOf(v, managed);
    PublishesOnlyChanges(seed, events, v, managed, key);
    MirroredSnoc(start, s.published, (key, t.last[key]));
  }

  // ---- The adapter's accumulator, updated in place ----

  class BalanceAccumulator {
    var tags: map<Key, Tags>
    var last: map<Key, Balance>
    var published: seq<(Key, Balance)>
    const managed: string

    ghost function Model(): State
      reads this
    {
      State(tags, last, published)
    }

    constructor (managedAccount: string)
      ensures managed == managedAccount && Model() == State(map[], map[], [])
    {
      managed := managedAccount;
      tags, last, published := map[], map[], [];
    }

    /** A reconnect starts over from the summary the venue holds. */
    method SeedBalanceTags(values: seq<Value>)
      modifies this
      ensures Model() == Seed(values, managed).(published := old(published))
    {
      tags, last := map[], map[];
      for i := 0 to |values|
        invariant tags == NotedAll(values[..i], managed) && last == map[] && published == old(published)
      {
        assert values[..i + 1][..i] == values[..i];
        var v := values[i];
        if Counts(v) {
          var key := KeyOf(v, managed);
          tags := tags[key := Bucket(tags, key)[v.tag := v.amount.value]];
        }
      }
      assert values[..|values|] == values;
      var todo := tags.Keys;
      while todo != {}
        modifies `last
        invariant todo <= tags.Keys
        invariant forall k :: k in last <==> k in tags && k !in todo && BalanceFromTags(tags[k]).Some?
        invariant forall k :: k in last ==> BalanceFromTags(tags[k]) == Some(last[k])
      {
        var key :| key in todo;
        todo := todo - {key};
        var balance := BalanceFromTags(tags[key]);
        if balance.Some? { last := last[key := balance.value]; }
      }
      assert last == Known(tags);
    }

    method OnAccountValue(v: Value)
      modifies this
      ensures Model() == Step(old(Model()), v, managed)
    {
      if !Counts(v) { return; }
      var key := KeyOf(v, managed);
      var bucket := Bucket(tags, key)[v.tag := v.amount.value];
      tags := tags[key := bucket];
      var balance := BalanceFromTags(bucket);
      if balance.None? { return; }
      if key in last && last[key] == balance.value { return; }
      last := last[key := balance.value];
      published := published + [(key, balance.value)];
    }
  }
}
