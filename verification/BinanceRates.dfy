/** The Binance request budget: several counters per product, each in a window of
    its own, reported as one remaining count that must fail closed. */
module BinanceRates {
  import opened Common

  /** Instants and durations are in microseconds. */
  const SECOND := 1_000_000
  const MAX_RETRY_AFTER_SECONDS := 3 * 24 * 60 * 60
  const UNKNOWN_LIMIT_INTERVAL := 60 * SECOND

  datatype Kind = RequestWeight | Orders | RawRequests
  datatype Letter = S | M | H | D
  datatype Key = Key(kind: Kind, num: nat, letter: Letter)

  /** The count is absent when a header's value could not be read. */
  datatype Usage = Usage(used: Option<nat>, at: int)

  type Product = string
  type Limits = map<Key, nat>
  type Counters = map<Key, Usage>

  function LetterSeconds(l: Letter): nat {
    match l
    case S => 1
    case M => 60
    case H => 60 * 60
    case D => 24 * 60 * 60
  }

  function Interval(k: Key): int {
    k.num * LetterSeconds(k.letter) * SECOND
  }

  predicate Excessive(num: nat, l: Letter) {
    num > MAX_RETRY_AFTER_SECONDS / LetterSeconds(l)
  }

  // ---- Inputs ----

  /** A rate-limit entry of the exchange info. Numbers are absent when they are
      not canonical non-negative integers. */
  datatype RawLimit =
    | NotAMapping
    | NoType
    | OtherType
    | RawLimit(kind: Kind, letter: Option<Letter>, num: Option<nat>, limit: Option<nat>)

  /** A response header: a used-weight or order-count header, a header with one of
      their prefixes that does not match their pattern, or any other. */
  datatype Header = Counter(kind: Kind, num: Option<nat>, letter: Letter, value: Option<nat>) | Garbled | Unrelated

  datatype Response = Response(
    product: Product, limits: Option<seq<RawLimit>>, headers: seq<Header>, status: int, retryAfter: Option<int>, now: int)

  function Positive(n: Option<nat>): Option<nat> {
    if n.Some? && n.value == 0 then None else n
  }

  predicate Malformed(r: RawLimit) {
    match r
    case NotAMapping => true
    case NoType => true
    case OtherType => false
    case RawLimit(_, letter, num, limit) =>
      letter.None? || Positive(num).None? || Positive(limit).None? || Excessive(num.value, letter.value)
  }

  /** The observed definitions of a list, or the error of its first malformed entry. */
  function ParseDefinitions(raws: seq<RawLimit>): Result<Limits, string> {
    if raws == [] then Ok(map[])
    else
      var front, last := ParseDefinitions(raws[..|raws| - 1]), raws[|raws| - 1];
      if front.Err? then front
      else if Malformed(last) then Err("malformed rate limit")
      else if last.OtherType? then front
      else Ok(front.value[Key(last.kind, last.num.value, last.letter.value) := last.limit.value])
  }

  // ---- State ----

  datatype State = State(
    definitions: map<Product, Limits>, usage: map<Product, Counters>, raw: map<Product, Counters>,
    unparseable: map<Product, int>, blocked: Option<int>)

  const EMPTY := State(map[], map[], map[], map[], None)

  function LimitsOf(s: State, p: Product): Limits {
    if p in s.definitions then s.definitions[p] else map[]
  }

  function CountersOf(m: map<Product, Counters>, p: Product): Counters {
    if p in m then m[p] else map[]
  }

  /** The longest interval of the definitions, a minute when there are none. */
  ghost predicate IsLongest(keys: set<Key>, d: int) {
    if keys == {} then d == UNKNOWN_LIMIT_INTERVAL
    else (exists k :: k in keys && Interval(k) == d) && forall k :: k in keys ==> Interval(k) <= d
  }

  lemma {:induction false} LongestExists(keys: set<Key>) returns (d: int)
    ensures IsLongest(keys, d)
    decreases |keys|
  {
    if keys == {} {
      d := UNKNOWN_LIMIT_INTERVAL;
    } else {
      var k :| k in keys;
      if keys == {k} {
        d := Interval(k);
      } else {
        var rest := keys - {k};
        assert keys == rest + {k};
        var e := LongestExists(rest);
        d := if Interval(k) > e then Interval(k) else e;
      }
    }
  }

  ghost function Longest(keys: set<Key>): (d: int)
    ensures IsLongest(keys, d)
  {
    assert exists d :: IsLongest(keys, d) by { var d := LongestExists(keys); }
    var d :| IsLongest(keys, d);
    d
  }

  method LongestInterval(definitions: Limits) returns (d: int)
    ensures d == Longest(definitions.Keys)
  {
    d := UNKNOWN_LIMIT_INTERVAL;
    var todo, seen := definitions.Keys, {};
    while todo != {}
      invariant todo + seen == definitions.Keys
      invariant IsLongest(seen, d)
    {
      var k :| k in todo;
      if seen == {} || Interval(k) > d { d := Interval(k); }
      todo, seen := todo - {k}, seen + {k};
    }
    assert seen == definitions.Keys;
  }

  // ---- Update ----

  /** One more request in the local window, which restarts once it has run out. */
  function Bumped(previous: Option<Usage>, interval: int, now: int): Usage {
    if previous.None? || now >= previous.value.at + interval then Usage(Some(1), now)
    else Usage(Some((if previous.value.used.Some? then previous.value.used.value else 0) + 1), previous.value.at)
  }

  function Find(m: Counters, k: Key): Option<Usage> {
    if k in m then Some(m[k]) else None
  }

  function CountRaw(raw: Counters, limits: Limits, now: int): Counters {
    raw + map k | k in limits && k.kind.RawRequests? :: Bumped(Find(raw, k), Interval(k), now)
  }

  function Later(previous: Option<int>, t: int): int {
    if previous.Some? && previous.value >= t then previous.value else t
  }

  /** A header that names a counter but cannot be read. */
  predicate Unreadable(h: Header) {
    h.Garbled? || (h.Counter? && (Positive(h.num).None? || Excessive(h.num.value, h.letter)))
  }

  predicate Readable(h: Header) {
    h.Counter? && !Unreadable(h)
  }

  function KeyOf(h: Header): Key
    requires Readable(h)
  {
    Key(h.kind, h.num.value, h.letter)
  }

  function ReadHeaders(usage: Counters, hs: seq<Header>, now: int): Counters {
    if hs == [] then usage
    else
      var front, last := ReadHeaders(usage, hs[..|hs| - 1], now), hs[|hs| - 1];
      if Readable(last) then front[KeyOf(last) := Usage(last.value, now)] else front
  }

  predicate AnyUnreadable(hs: seq<Header>) {
    exists i :: 0 <= i < |hs| && Unreadable(hs[i])
  }

  /** Retry-After in delay-seconds form, clamped; a negative one is unusable. */
  function RetryDelay(raw: Option<int>): Option<int> {
    if raw.None? || raw.value < 0 then None
    else Some(if raw.value > MAX_RETRY_AFTER_SECONDS * SECOND then MAX_RETRY_AFTER_SECONDS * SECOND else raw.value)
  }

  ghost function BlockDelay(r: Response, limits: Limits): int {
    var delay := RetryDelay(r.retryAfter);
    if delay.Some? then delay.value
    else if r.status == 418 then MAX_RETRY_AFTER_SECONDS * SECOND
    else Longest(limits.Keys)
  }

  predicate Limited(status: int) {
    status == 418 || status == 429
  }

  /** The definitions in force after a response: replaced as a whole, if it has any. */
  function Redefined(s: State, r: Response, parsed: Limits): map<Product, Limits> {
    if parsed == map[] then s.definitions else s.definitions[r.product := parsed]
  }

  ghost function Recorded(s: State, r: Response, parsed: Limits): State {
    var p, definitions := r.product, Redefined(s, r, parsed);
    var limits := LimitsOf(s.(definitions := definitions), p);
    State(
      definitions,
      s.usage[p := ReadHeaders(CountersOf(s.usage, p), r.headers, r.now)],
      s.raw[p := CountRaw(CountersOf(s.raw, p), limits, r.now)],
      if AnyUnreadable(r.headers)
      then s.unparseable[p := Later(if p in s.unparseable then Some(s.unparseable[p]) else None, r.now + Longest(limits.Keys))]
      else s.unparseable,
      if Limited(r.status) then Some(Later(s.blocked, r.now + BlockDelay(r, limits))) else s.blocked)
  }

  function Parsed(r: Response): Result<Limits, string> {
    if r.limits.None? then Ok(map[]) else ParseDefinitions(r.limits.value)
  }

  /** A malformed definition raises before anything is recorded. */
  ghost function Responded(s: State, r: Response): State {
    if Parsed(r).Err? then s else Recorded(s, r, Parsed(r).value)
  }

  ghost function Run(s: State, rs: seq<Response>): State
    decreases |rs|
  {
    if rs == [] then s else Run(Responded(s, rs[0]), rs[1..])
  }

  // ---- What one response records ----

  /** A bucket longer than three days is refused. */
  lemma ExcessiveIffLong(num: nat, l: Letter)
    ensures Excessive(num, l) <==> num * LetterSeconds(l) > MAX_RETRY_AFTER_SECONDS
  {
  }

  /** A day is 24 hours of 60 minutes of 60 seconds. */
  lemma IntervalsNest(kind: Kind, n: nat)
    ensures Interval(Key(kind, 1, S)) == SECOND && Interval(Key(kind, n, M)) == n * Interval(Key(kind, 60, S))
    ensures Interval(Key(kind, n, H)) == n * Interval(Key(kind, 60, M))
    ensures Interval(Key(kind, n, D)) == n * Interval(Key(kind, 24, H))
  {
  }

  /** A definition the venue sends in a form the tracker can use. */
  predicate Defines(r: RawLimit, k: Key, limit: nat) {
    && r.RawLimit? && r.kind == k.kind && r.letter == Some(k.letter) && r.num == Some(k.num) && r.limit == Some(limit)
    && k.num > 0 && limit > 0 && k.num * LetterSeconds(k.letter) <= MAX_RETRY_AFTER_SECONDS
  }

  /** Parsed definitions are those listed, the last one of a bucket counting. */
  lemma {:induction false} ParsedAreListed(raws: seq<RawLimit>, k: Key)
    requires ParseDefinitions(raws).Ok? && k in ParseDefinitions(raws).value
    ensures exists i :: 0 <= i < |raws| && Defines(raws[i], k, ParseDefinitions(raws).value[k])
  {
    var front, last := raws[..|raws| - 1], raws[|raws| - 1];
    var limit := ParseDefinitions(raws).value[k];
    if last.RawLimit? && Key(last.kind, last.num.value, last.letter.value) == k {
      ExcessiveIffLong(k.num, k.letter);
      assert Defines(last, k, limit);
    } else {
      ParsedAreListed(front, k);
      var i :| 0 <= i < |front| && Defines(front[i], k, limit);
      assert Defines(raws[i], k, limit);
    }
  }

  lemma {:induction false} LastDefinitionCounts(raws: seq<RawLimit>, i: nat, k: Key, limit: nat)
    requires ParseDefinitions(raws).Ok? && i < |raws| && Defines(raws[i], k, limit)
    requires forall j, other :: i < j < |raws| ==> !Defines(raws[j], k, other)
    ensures k in ParseDefinitions(raws).value && ParseDefinitions(raws).value[k] == limit
  {
    var front, last := raws[..|raws| - 1], raws[|raws| - 1];
    if last.RawLimit? { ExcessiveIffLong(last.num.value, last.letter.value); }
    if i < |front| {
      LastDefinitionCounts(front, i, k, limit);
      if last.RawLimit? { assert !Defines(last, k, last.limit.value); }
    }
  }

  /** Every way an entry can be refused; a type that is not observed never is. */
  lemma RefusedEntries(r: RawLimit)
    ensures Malformed(r) <==>
              match r
              case NotAMapping => true
              case NoType => true
              case OtherType => false
              case RawLimit(kind, letter, num, limit) =>
                !(letter.Some? && num.Some? && limit.Some? && Defines(r, Key(kind, num.value, letter.value), limit.value))
  {
    if r.RawLimit? && r.num.Some? && r.letter.Some? { ExcessiveIffLong(r.num.value, r.letter.value); }
  }

  /** A counter header of a bucket of at most three days. */
  predicate Tells(h: Header, k: Key) {
    && h.Counter? && h.kind == k.kind && h.num == Some(k.num) && h.letter == k.letter
    && k.num > 0 && k.num * LetterSeconds(k.letter) <= MAX_RETRY_AFTER_SECONDS
  }

  lemma TellsIsReadable(h: Header, k: Key)
    ensures Tells(h, k) <==> Readable(h) && KeyOf(h) == k
  {
    if h.Counter? && h.num.Some? { ExcessiveIffLong(h.num.value, h.letter); }
  }

  /** A counter is the one the last header of its bucket told, readable or not, and
      the one before when no header is about it. */
  lemma {:induction false} LastHeaderCounts(usage: Counters, hs: seq<Header>, now: int, i: nat, k: Key)
    requires i < |hs| && Tells(hs[i], k) && forall j :: i < j < |hs| ==> !Tells(hs[j], k)
    ensures Find(ReadHeaders(usage, hs, now), k) == Some(Usage(hs[i].value, now))
  {
    var n := |hs| - 1;
    TellsIsReadable(hs[n], k);
    if i < n { LastHeaderCounts(usage, hs[..n], now, i, k); }
  }

  lemma {:induction false} UntoldCounterStays(usage: Counters, hs: seq<Header>, now: int, k: Key)
    requires forall j :: 0 <= j < |hs| ==> !Tells(hs[j], k)
    ensures Find(ReadHeaders(usage, hs, now), k) == Find(usage, k)
  {
    if hs != [] {
      var n := |hs| - 1;
      TellsIsReadable(hs[n], k);
      assert forall j :: 0 <= j < n ==> hs[..n][j] == hs[j];
      UntoldCounterStays(usage, hs[..n], now, k);
    }
  }

  /** The header that fails closed: one with a counter's prefix that tells no bucket. */
  lemma UnreadableIff(h: Header)
    ensures Unreadable(h) <==> h.Garbled? || (h.Counter? && forall k :: !Tells(h, k))
  {
    if h.Counter? && h.num.Some? {
      var k := Key(h.kind, h.num.value, h.letter);
      ExcessiveIffLong(h.num.value, h.letter);
      assert Tells(h, k) <==> !Unreadable(h);
    }
  }

  /** A block lasts for the delay the response asks for, at most three days, and
      never shortens; without a usable delay, three days after 418 and the longest
      defined interval after 429. No other status blocks. */
  lemma BlockIsExact(s: State, r: Response)
    requires Parsed(r).Ok?
    ensures var t, asked := Responded(s, r), r.retryAfter;
            var delay := if asked.Some? && asked.value > MAX_RETRY_AFTER_SECONDS * SECOND then MAX_RETRY_AFTER_SECONDS * SECOND
                         else if asked.Some? && asked.value >= 0 then asked.value
                         else if r.status == 418 then MAX_RETRY_AFTER_SECONDS * SECOND
                         else Longest(LimitsOf(t, r.product).Keys);
            if r.status == 418 || r.status == 429 then
              && t.blocked.Some? && t.blocked.value >= r.now + delay
              && (t.blocked.value == r.now + delay || t.blocked == s.blocked)
              && (s.blocked.Some? ==> t.blocked.value >= s.blocked.value)
            else t.blocked == s.blocked
  {
  }

  /** A response replaces the definitions of its product if it brings any, and
      leaves every other product alone. */
  lemma ResponseKeepsOthers(s: State, r: Response, p: Product)
    requires Parsed(r).Ok?
    ensures var t := Responded(s, r);
            && LimitsOf(t, r.product) == (if Parsed(r).value == map[] then LimitsOf(s, r.product) else Parsed(r).value)
            && CountersOf(t.usage, r.product) == ReadHeaders(CountersOf(s.usage, r.product), r.headers, r.now)
            && (p != r.product ==>
                  && LimitsOf(t, p) == LimitsOf(s, p) && CountersOf(t.usage, p) == CountersOf(s.usage, p)
                  && CountersOf(t.raw, p) == CountersOf(s.raw, p)
                  && (p in t.unparseable <==> p in s.unparseable) && (p in s.unparseable ==> t.unparseable[p] == s.unparseable[p]))
  {
  }

  // ---- Snapshot ----

  datatype Candidate = Candidate(limit: int, remaining: int, interval: int, resetAt: int)

  function Observed(s: State, p: Product, k: Key): Option<Usage> {
    Find(CountersOf(if k.kind.RawRequests? then s.raw else s.usage, p), k)
  }

  /** The report reads a weight or order bucket from the last header that told it. */
  lemma HeaderIsObserved(s: State, r: Response, i: nat, k: Key)
    requires Parsed(r).Ok? && !k.kind.RawRequests?
    requires i < |r.headers| && Tells(r.headers[i], k) && forall j :: i < j < |r.headers| ==> !Tells(r.headers[j], k)
    ensures Observed(Responded(s, r), r.product, k) == Some(Usage(r.headers[i].value, r.now))
  {
    LastHeaderCounts(CountersOf(s.usage, r.product), r.headers, r.now, i, k);
  }

  /** A defined bucket with a counter: full again once its window has run out. */
  function DefinedCandidate(k: Key, limit: nat, u: Usage, now: int): Candidate {
    var end := u.at + Interval(k);
    if now >= end then Candidate(limit, limit, Interval(k), now + Interval(k))
    else if u.used.None? then Candidate(limit, 0, Interval(k), end)
    else Candidate(limit, if limit > u.used.value then limit - u.used.value else 0, Interval(k), end)
  }

  /** A counter of a bucket nobody defined closes the budget. */
  function UndefinedCandidate(k: Key, u: Usage): Candidate {
    Candidate(1, 0, Interval(k), u.at + Interval(k))
  }

  function ClosedUntil(until: int, now: int): Candidate {
    Candidate(1, 0, until - now, until)
  }

  function DefinedCandidates(s: State, p: Product, now: int): set<Candidate> {
    set k | k in LimitsOf(s, p) && Observed(s, p, k).Some? ::
      DefinedCandidate(k, LimitsOf(s, p)[k], Observed(s, p, k).value, now)
  }

  function UndefinedCandidates(s: State, p: Product): set<Candidate> {
    set k | k in CountersOf(s.usage, p) && k !in LimitsOf(s, p) :: UndefinedCandidate(k, CountersOf(s.usage, p)[k])
  }

  function HeaderCandidates(s: State, p: Product, now: int): set<Candidate> {
    if p in s.unparseable && s.unparseable[p] > now then {ClosedUntil(s.unparseable[p], now)} else {}
  }

  function ProductCandidates(s: State, p: Product, now: int): set<Candidate> {
    DefinedCandidates(s, p, now) + UndefinedCandidates(s, p) + HeaderCandidates(s, p, now)
  }

  function BlockCandidates(s: State, now: int): set<Candidate> {
    if s.blocked.Some? && s.blocked.value > now then {ClosedUntil(s.blocked.value, now)} else {}
  }

  function Products(s: State): set<Product> {
    s.definitions.Keys + s.usage.Keys
  }

  function Candidates(s: State, now: int): set<Candidate> {
    (set p, c | p in Products(s) && c in ProductCandidates(s, p, now) :: c) + BlockCandidates(s, now)
  }

  datatype RateLimits = RateLimits(requests: int, interval: int, remaining: int, resetAt: int)

  /** Least remaining first, then the longest interval. */
  predicate NotTighter(a: Candidate, b: Candidate) {
    a.remaining < b.remaining || (a.remaining == b.remaining && a.interval >= b.interval)
  }

  function Report(c: Candidate): RateLimits {
    RateLimits(if c.limit > 1 then c.limit else 1, c.interval, c.remaining, c.resetAt)
  }

  ghost predicate IsTightest(s: State, now: int, c: Candidate) {
    c in Candidates(s, now) && forall d :: d in Candidates(s, now) ==> NotTighter(c, d)
  }

  /** The report is the tightest candidate's, or closed when nothing was observed. */
  ghost predicate IsSnapshot(s: State, now: int, r: RateLimits) {
    if Candidates(s, now) == {} then r == RateLimits(1, UNKNOWN_LIMIT_INTERVAL, 0, now)
    else exists c :: IsTightest(s, now, c) && r == Report(c)
  }

  // ---- Fail closed ----

  /** Every bucket the products observed leaves something to spend. */
  ghost predicate Spendable(k: Key, limit: nat, u: Usage, now: int) {
    now >= u.at + Interval(k) || (u.used.Some? && u.used.value < limit)
  }

  ghost predicate BucketObserved(s: State, p: Product, k: Key) {
    k in LimitsOf(s, p) && Observed(s, p, k).Some?
  }

  ghost predicate BudgetOpen(s: State, now: int) {
    && (exists p, k :: BucketObserved(s, p, k))
    && (s.blocked.None? || s.blocked.value <= now)
    && (forall p :: p in s.unparseable ==> s.unparseable[p] <= now)
    && (forall p, k :: k in CountersOf(s.usage, p) ==> k in LimitsOf(s, p))
    && (forall p, k :: BucketObserved(s, p, k) ==> Spendable(k, LimitsOf(s, p)[k], Observed(s, p, k).value, now))
  }

  ghost predicate Valid(s: State) {
    && s.unparseable.Keys <= s.usage.Keys
    && (forall p, k :: p in s.definitions && k in s.definitions[p] ==> s.definitions[p][k] > 0)
  }

  lemma {:induction false} ParsedArePositive(raws: seq<RawLimit>)
    requires ParseDefinitions(raws).Ok?
    ensures forall k :: k in ParseDefinitions(raws).value ==> ParseDefinitions(raws).value[k] > 0
  {
    if raws != [] { ParsedArePositive(raws[..|raws| - 1]); }
  }

  lemma UpdateValid(s: State, r: Response)
    requires Valid(s)
    ensures Valid(Responded(s, r))
  {
    if Parsed(r).Ok? && r.limits.Some? { ParsedArePositive(r.limits.value); }
  }

  lemma {:induction false} RunValid(s: State, rs: seq<Response>)
    requires Valid(s)
    ensures Valid(Run(s, rs))
    decreases |rs|
  {
    if rs != [] {
      UpdateValid(s, rs[0]);
      RunValid(Responded(s, rs[0]), rs[1..]);
    }
  }

  lemma ProductCandidate(s: State, p: Product, now: int, c: Candidate)
    requires c in ProductCandidates(s, p, now)
    ensures c.remaining >= 0
    ensures c.remaining > 0 ==> c in DefinedCandidates(s, p, now)
  {
  }

  lemma NonNegative(s: State, now: int, c: Candidate)
    requires c in Candidates(s, now)
    ensures c.remaining >= 0
  {
    if c !in BlockCandidates(s, now) {
      var p :| p in Products(s) && c in ProductCandidates(s, p, now);
      ProductCandidate(s, p, now, c);
    }
  }

  /** A candidate with nothing left closes the report. */
  lemma ClosedBy(s: State, now: int, r: RateLimits, c: Candidate)
    requires IsSnapshot(s, now, r) && c in Candidates(s, now) && c.remaining == 0
    ensures r.remaining == 0
  {
    var d :| IsTightest(s, now, d) && r == Report(d);
    NonNegative(s, now, d);
    assert NotTighter(d, c);
  }

  lemma OpenProductIsSpendable(s: State, p: Product, now: int, c: Candidate)
    requires Valid(s) && BudgetOpen(s, now) && c in ProductCandidates(s, p, now)
    ensures c.remaining > 0
  {
    assert UndefinedCandidates(s, p) == {} && HeaderCandidates(s, p, now) == {};
    var k :| k in LimitsOf(s, p) && Observed(s, p, k).Some? &&
      c == DefinedCandidate(k, LimitsOf(s, p)[k], Observed(s, p, k).value, now);
    assert BucketObserved(s, p, k);
    assert Spendable(k, LimitsOf(s, p)[k], Observed(s, p, k).value, now);
  }

  lemma OpenMeansSpendable(s: State, now: int, c: Candidate)
    requires Valid(s) && BudgetOpen(s, now) && c in Candidates(s, now)
    ensures c.remaining > 0
  {
    var p :| p in Products(s) && c in ProductCandidates(s, p, now);
    OpenProductIsSpendable(s, p, now, c);
  }

  lemma UndefinedIsListed(s: State, now: int, p: Product, k: Key)
    requires k in CountersOf(s.usage, p) && k !in LimitsOf(s, p)
    ensures UndefinedCandidate(k, CountersOf(s.usage, p)[k]) in Candidates(s, now)
  {
    var c := UndefinedCandidate(k, CountersOf(s.usage, p)[k]);
    assert c in UndefinedCandidates(s, p) && p in Products(s);
    assert c in ProductCandidates(s, p, now);
  }

  lemma HeaderIsListed(s: State, now: int, p: Product)
    requires Valid(s) && p in s.unparseable && s.unparseable[p] > now
    ensures ClosedUntil(s.unparseable[p], now) in Candidates(s, now)
  {
    assert p in Products(s) && ClosedUntil(s.unparseable[p], now) in ProductCandidates(s, p, now);
  }

  lemma DefinedIsListed(s: State, now: int, p: Product, k: Key)
    requires BucketObserved(s, p, k)
    ensures DefinedCandidate(k, LimitsOf(s, p)[k], Observed(s, p, k).value, now) in Candidates(s, now)
  {
    var c := DefinedCandidate(k, LimitsOf(s, p)[k], Observed(s, p, k).value, now);
    assert c in DefinedCandidates(s, p, now) && p in Products(s);
    assert c in ProductCandidates(s, p, now);
  }

  lemma SnapshotIsOpenIff(s: State, now: int, r: RateLimits)
    requires Valid(s) && IsSnapshot(s, now, r)
    ensures r.remaining > 0 <==> BudgetOpen(s, now)
    ensures r.remaining >= 0
  {
    if Candidates(s, now) == {} {
      if BudgetOpen(s, now) {
        var p, k :| BucketObserved(s, p, k);
        DefinedIsListed(s, now, p, k);
      }
    } else {
      var c :| IsTightest(s, now, c) && r == Report(c);
      NonNegative(s, now, c);
      if BudgetOpen(s, now) { OpenMeansSpendable(s, now, c); }
      if c.remaining > 0 { PositiveMeansOpen(s, now, c); }
    }
  }

  /** The report leaves something to spend exactly when some bucket was observed,
      no block and no unreadable header is pending, every counter seen in a header
      is defined, and every bucket in a running window is known to be below its limit. */
  lemma RemainingIffOpen(rs: seq<Response>, now: int, r: RateLimits)
    requires IsSnapshot(Run(EMPTY, rs), now, r)
    ensures r.remaining > 0 <==> BudgetOpen(Run(EMPTY, rs), now)
    ensures r.remaining >= 0
  {
    RunValid(EMPTY, rs);
    SnapshotIsOpenIff(Run(EMPTY, rs), now, r);
  }

  lemma PositiveMeansOpen(s: State, now: int, c: Candidate)
    requires Valid(s) && IsTightest(s, now, c) && c.remaining > 0
    ensures BudgetOpen(s, now)
  {
    assert s.blocked.Some? && s.blocked.value > now ==> ClosedUntil(s.blocked.value, now) in Candidates(s, now);
    forall p | p in s.unparseable ensures s.unparseable[p] <= now {
      if s.unparseable[p] > now { HeaderIsListed(s, now, p); }
    }
    forall p, k | k in CountersOf(s.usage, p) ensures k in LimitsOf(s, p) {
      if k !in LimitsOf(s, p) { UndefinedIsListed(s, now, p, k); }
    }
    forall p, k | BucketObserved(s, p, k)
      ensures Spendable(k, LimitsOf(s, p)[k], Observed(s, p, k).value, now)
    {
      DefinedIsListed(s, now, p, k);
    }
    var p :| p in Products(s) && c in ProductCandidates(s, p, now);
    ProductCandidate(s, p, now, c);
    var k :| k in LimitsOf(s, p) && Observed(s, p, k).Some? &&
      c == DefinedCandidate(k, LimitsOf(s, p)[k], Observed(s, p, k).value, now);
    assert BucketObserved(s, p, k);
  }

  // ---- How much is left, and why nothing is ----

  /** The bucket stays within its limit when that many more requests are made. */
  ghost predicate Allows(k: Key, limit: nat, u: Usage, now: int, more: int) {
    if now < u.at + Interval(k) then u.used.Some? && u.used.value + more <= limit else more <= limit
  }

  /** The report is about this bucket: its limit, its interval, and the end of its
      window, or of the one a request now would start. */
  ghost predicate Describes(r: RateLimits, k: Key, limit: nat, u: Usage, now: int) {
    && r.requests == limit && r.interval == Interval(k)
    && r.resetAt == (if now < u.at + Interval(k) then u.at else now) + Interval(k)
  }

  /** The bucket was observed and allows that many more. */
  ghost predicate Leaves(s: State, now: int, p: Product, k: Key, more: int) {
    BucketObserved(s, p, k) && Allows(k, LimitsOf(s, p)[k], Observed(s, p, k).value, now, more)
  }

  /** An open report is the largest number of requests that every observed bucket
      allows, and describes a bucket that allows no more, one of the longest. */
  ghost predicate TellsTheTightest(s: State, now: int, r: RateLimits) {
    && (forall p, k :: BucketObserved(s, p, k) ==> Leaves(s, now, p, k, r.remaining))
    && (exists p, k :: BucketObserved(s, p, k) && !Leaves(s, now, p, k, r.remaining + 1)
          && Describes(r, k, LimitsOf(s, p)[k], Observed(s, p, k).value, now))
    && (forall p, k :: BucketObserved(s, p, k) && !Leaves(s, now, p, k, r.remaining + 1) ==> Interval(k) <= r.interval)
  }

  lemma OpenBucket(k: Key, limit: nat, u: Usage, now: int)
    requires limit > 0 && Spendable(k, limit, u, now)
    ensures var c := DefinedCandidate(k, limit, u, now);
            && Allows(k, limit, u, now, c.remaining) && !Allows(k, limit, u, now, c.remaining + 1)
            && Describes(Report(c), k, limit, u, now)
  {
  }

  lemma OpenAllows(k: Key, limit: nat, u: Usage, now: int, c: Candidate)
    requires limit > 0 && Spendable(k, limit, u, now) && NotTighter(c, DefinedCandidate(k, limit, u, now))
    ensures Allows(k, limit, u, now, c.remaining)
    ensures !Allows(k, limit, u, now, c.remaining + 1) ==> Interval(k) <= c.interval
  {
    OpenBucket(k, limit, u, now);
  }

  lemma OpenAt(s: State, now: int, c: Candidate, p: Product, k: Key)
    requires Valid(s) && BudgetOpen(s, now) && IsTightest(s, now, c) && BucketObserved(s, p, k)
    ensures Leaves(s, now, p, k, c.remaining)
    ensures !Leaves(s, now, p, k, c.remaining + 1) ==> Interval(k) <= c.interval
  {
    DefinedIsListed(s, now, p, k);
    OpenAllows(k, LimitsOf(s, p)[k], Observed(s, p, k).value, now, c);
  }

  lemma OpenAttains(s: State, now: int, c: Candidate) returns (p: Product, k: Key)
    requires Valid(s) && BudgetOpen(s, now) && c in Candidates(s, now)
    ensures BucketObserved(s, p, k) && !Leaves(s, now, p, k, c.remaining + 1)
    ensures Describes(Report(c), k, LimitsOf(s, p)[k], Observed(s, p, k).value, now)
  {
    OpenMeansSpendable(s, now, c);
    p :| p in Products(s) && c in ProductCandidates(s, p, now);
    ProductCandidate(s, p, now, c);
    k :| k in LimitsOf(s, p) && Observed(s, p, k).Some? &&
      c == DefinedCandidate(k, LimitsOf(s, p)[k], Observed(s, p, k).value, now);
    assert BucketObserved(s, p, k);
    OpenBucket(k, LimitsOf(s, p)[k], Observed(s, p, k).value, now);
  }

  lemma TightestTells(s: State, now: int, c: Candidate)
    requires Valid(s) && BudgetOpen(s, now) && IsTightest(s, now, c)
    ensures TellsTheTightest(s, now, Report(c))
  {
    forall p, k | BucketObserved(s, p, k)
      ensures Leaves(s, now, p, k, c.remaining)
      ensures !Leaves(s, now, p, k, c.remaining + 1) ==> Interval(k) <= c.interval
    {
      OpenAt(s, now, c, p, k);
    }
    var p, k := OpenAttains(s, now, c);
  }

  lemma OpenReport(s: State, now: int, r: RateLimits)
    requires Valid(s) && IsSnapshot(s, now, r) && BudgetOpen(s, now)
    ensures TellsTheTightest(s, now, r)
  {
    var p, k :| BucketObserved(s, p, k);
    DefinedIsListed(s, now, p, k);
    var c :| IsTightest(s, now, c) && r == Report(c);
    TightestTells(s, now, c);
  }

  /** A block or an unreadable header holds until that instant. */
  ghost predicate Pending(s: State, now: int, until: int) {
    until > now && (s.blocked == Some(until) || exists p :: p in s.unparseable && s.unparseable[p] == until)
  }

  /** A counter was seen that nobody defined. */
  ghost predicate Stray(s: State, p: Product, k: Key) {
    k in CountersOf(s.usage, p) && k !in LimitsOf(s, p)
  }

  /** A bucket has nothing left, or nothing known, in its running window. */
  ghost predicate Spent(s: State, now: int, p: Product, k: Key) {
    BucketObserved(s, p, k) && !Spendable(k, LimitsOf(s, p)[k], Observed(s, p, k).value, now)
  }

  /** What closes the budget, with the limit, interval and end a report gives it. */
  ghost predicate Closes(s: State, now: int, requests: int, interval: int, resetAt: int) {
    || (requests == 1 && Pending(s, now, resetAt) && interval == resetAt - now)
    || (requests == 1 && exists p, k ::
          Stray(s, p, k) && interval == Interval(k) && resetAt == CountersOf(s.usage, p)[k].at + Interval(k))
    || (exists p, k ::
          && Spent(s, now, p, k) && requests == LimitsOf(s, p)[k]
          && interval == Interval(k) && resetAt == Observed(s, p, k).value.at + Interval(k))
  }

  lemma SpentBucketCloses(s: State, now: int, p: Product, k: Key)
    requires Valid(s) && BucketObserved(s, p, k)
    requires DefinedCandidate(k, LimitsOf(s, p)[k], Observed(s, p, k).value, now).remaining == 0
    ensures var c := DefinedCandidate(k, LimitsOf(s, p)[k], Observed(s, p, k).value, now);
            Closes(s, now, Report(c).requests, c.interval, c.resetAt)
  {
    assert Spent(s, now, p, k);
  }

  lemma StrayCloses(s: State, now: int, p: Product, k: Key)
    requires Stray(s, p, k)
    ensures var c := UndefinedCandidate(k, CountersOf(s.usage, p)[k]);
            Closes(s, now, Report(c).requests, c.interval, c.resetAt)
  {
  }

  lemma SpentCandidateCloses(s: State, now: int, c: Candidate)
    requires Valid(s) && c in Candidates(s, now) && c.remaining == 0
    ensures Closes(s, now, Report(c).requests, c.interval, c.resetAt)
  {
    if c in BlockCandidates(s, now) {
      assert Pending(s, now, c.resetAt);
    } else {
      var p :| p in Products(s) && c in ProductCandidates(s, p, now);
      if c in DefinedCandidates(s, p, now) {
        var k :| k in LimitsOf(s, p) && Observed(s, p, k).Some? &&
          c == DefinedCandidate(k, LimitsOf(s, p)[k], Observed(s, p, k).value, now);
        assert BucketObserved(s, p, k);
        SpentBucketCloses(s, now, p, k);
      } else if c in UndefinedCandidates(s, p) {
        var k :| k in CountersOf(s.usage, p) && k !in LimitsOf(s, p) && c == UndefinedCandidate(k, CountersOf(s.usage, p)[k]);
        StrayCloses(s, now, p, k);
      } else {
        assert Pending(s, now, c.resetAt);
      }
    }
  }

  lemma ClosingIsListed(s: State, now: int, requests: int, interval: int, resetAt: int) returns (c: Candidate)
    requires Valid(s) && Closes(s, now, requests, interval, resetAt)
    ensures c in Candidates(s, now) && c.remaining == 0 && c.interval == interval
  {
    if requests == 1 && Pending(s, now, resetAt) && interval == resetAt - now {
      c := ClosedUntil(resetAt, now);
      if s.blocked != Some(resetAt) {
        var p :| p in s.unparseable && s.unparseable[p] == resetAt;
        HeaderIsListed(s, now, p);
      }
    } else if exists p, k :: Stray(s, p, k) && interval == Interval(k) {
      var p, k :| Stray(s, p, k) && interval == Interval(k);
      c := UndefinedCandidate(k, CountersOf(s.usage, p)[k]);
      UndefinedIsListed(s, now, p, k);
    } else {
      var p, k :| Spent(s, now, p, k) && interval == Interval(k);
      c := DefinedCandidate(k, LimitsOf(s, p)[k], Observed(s, p, k).value, now);
      DefinedIsListed(s, now, p, k);
    }
  }

  /** A closed report describes the longest of the things that close the budget. */
  lemma ClosedReport(s: State, now: int, r: RateLimits, requests: int, interval: int, resetAt: int)
    requires Valid(s) && IsSnapshot(s, now, r) && Closes(s, now, requests, interval, resetAt)
    ensures r.remaining == 0 && Closes(s, now, r.requests, r.interval, r.resetAt) && interval <= r.interval
  {
    var d := ClosingIsListed(s, now, requests, interval, resetAt);
    var c :| IsTightest(s, now, c) && r == Report(c);
    NonNegative(s, now, c);
    assert NotTighter(c, d);
    SpentCandidateCloses(s, now, c);
  }

  /** With nothing observed and nothing closing it the report is still closed. */
  lemma NothingObserved(s: State, now: int, r: RateLimits)
    requires Valid(s) && IsSnapshot(s, now, r)
    requires forall p, k :: !BucketObserved(s, p, k)
    requires forall requests, interval, resetAt :: !Closes(s, now, requests, interval, resetAt)
    ensures r == RateLimits(1, UNKNOWN_LIMIT_INTERVAL, 0, now)
  {
    if Candidates(s, now) != {} {
      var c :| c in Candidates(s, now);
      NonNegative(s, now, c);
      if c.remaining == 0 {
        SpentCandidateCloses(s, now, c);
      } else {
        var p :| p in Products(s) && c in ProductCandidates(s, p, now);
        ProductCandidate(s, p, now, c);
        var k :| k in LimitsOf(s, p) && Observed(s, p, k).Some? &&
          c == DefinedCandidate(k, LimitsOf(s, p)[k], Observed(s, p, k).value, now);
        assert BucketObserved(s, p, k);
      }
    }
  }

  /** With a bucket observed, a budget that is not open is closed by something. */
  lemma SomethingCloses(s: State, now: int, p: Product, k: Key) returns (requests: int, interval: int, resetAt: int)
    requires BucketObserved(s, p, k) && !BudgetOpen(s, now)
    ensures Closes(s, now, requests, interval, resetAt)
  {
    if s.blocked.Some? && s.blocked.value > now {
      requests, interval, resetAt := 1, s.blocked.value - now, s.blocked.value;
    } else if q :| q in s.unparseable && s.unparseable[q] > now {
      requests, interval, resetAt := 1, s.unparseable[q] - now, s.unparseable[q];
    } else if q, j :| Stray(s, q, j) {
      requests, interval, resetAt := 1, Interval(j), CountersOf(s.usage, q)[j].at + Interval(j);
    } else {
      forall q, j | j in CountersOf(s.usage, q) ensures j in LimitsOf(s, q) { assert !Stray(s, q, j); }
      var q, j :| BucketObserved(s, q, j) && !Spendable(j, LimitsOf(s, q)[j], Observed(s, q, j).value, now);
      assert Spent(s, now, q, j);
      requests, interval, resetAt := LimitsOf(s, q)[j], Interval(j), Observed(s, q, j).value.at + Interval(j);
    }
  }

  /** The report after any responses: open and the tightest, or closed by something,
      or closed because nothing was observed. */
  lemma ReportIsExact(rs: seq<Response>, now: int, r: RateLimits)
    requires IsSnapshot(Run(EMPTY, rs), now, r)
    ensures var s := Run(EMPTY, rs);
            if BudgetOpen(s, now) then r.remaining > 0 && TellsTheTightest(s, now, r)
            else if (exists requests, interval, resetAt :: Closes(s, now, requests, interval, resetAt)) then
              && r.remaining == 0 && Closes(s, now, r.requests, r.interval, r.resetAt)
              && forall requests, interval, resetAt :: Closes(s, now, requests, interval, resetAt) ==> interval <= r.interval
            else r == RateLimits(1, UNKNOWN_LIMIT_INTERVAL, 0, now)
  {
    var s := Run(EMPTY, rs);
    RunValid(EMPTY, rs);
    SnapshotIsOpenIff(s, now, r);
    if BudgetOpen(s, now) {
      OpenReport(s, now, r);
    } else if exists requests, interval, resetAt :: Closes(s, now, requests, interval, resetAt) {
      forall requests, interval, resetAt | Closes(s, now, requests, interval, resetAt)
        ensures r.remaining == 0 && Closes(s, now, r.requests, r.interval, r.resetAt) && interval <= r.interval
      {
        ClosedReport(s, now, r, requests, interval, resetAt);
      }
    } else {
      forall p, k ensures !BucketObserved(s, p, k) {
        if BucketObserved(s, p, k) { var requests, interval, resetAt := SomethingCloses(s, now, p, k); }
      }
      NothingObserved(s, now, r);
    }
  }

  // ---- What later responses cannot undo ----

  lemma {:induction false} RunKeepsBlock(s: State, rs: seq<Response>, until: int)
    requires s.blocked.Some? && s.blocked.value >= until
    ensures Run(s, rs).blocked.Some? && Run(s, rs).blocked.value >= until
    decreases |rs|
  {
    if rs != [] { RunKeepsBlock(Responded(s, rs[0]), rs[1..], until); }
  }

  /** A recorded 418 or 429 forces the report to zero until its deadline, whatever
      responses arrive later: Retry-After seconds when they can be read, clamped to
      three days; else three days for 418 and the longest interval for 429. */
  lemma BlockHolds(before: seq<Response>, b: Response, later: seq<Response>, now: int, r: RateLimits)
    requires Limited(b.status) && Parsed(b).Ok?
    requires var s := Responded(Run(EMPTY, before), b);
             now < b.now + BlockDelay(b, LimitsOf(s, b.product)) && IsSnapshot(Run(s, later), now, r)
    ensures r.remaining == 0
  {
    var s := Responded(Run(EMPTY, before), b);
    var t := Run(s, later);
    RunKeepsBlock(s, later, b.now + BlockDelay(b, LimitsOf(s, b.product)));
    ClosedBy(t, now, r, ClosedUntil(t.blocked.value, now));
  }

  lemma {:induction false} RunKeepsUnparseable(s: State, rs: seq<Response>, p: Product, until: int)
    requires p in s.unparseable && s.unparseable[p] >= until
    ensures p in Run(s, rs).unparseable && Run(s, rs).unparseable[p] >= until
    decreases |rs|
  {
    if rs != [] { RunKeepsUnparseable(Responded(s, rs[0]), rs[1..], p, until); }
  }

  /** So does a counter header that could not be read, for the longest interval. */
  lemma UnreadableHeaderHolds(before: seq<Response>, b: Response, later: seq<Response>, now: int, r: RateLimits)
    requires AnyUnreadable(b.headers) && Parsed(b).Ok?
    requires var s := Responded(Run(EMPTY, before), b);
             now < b.now + Longest(LimitsOf(s, b.product).Keys) && IsSnapshot(Run(s, later), now, r)
    ensures r.remaining == 0
  {
    var s := Responded(Run(EMPTY, before), b);
    var t := Run(s, later);
    RunValid(EMPTY, before);
    UpdateValid(Run(EMPTY, before), b);
    RunValid(s, later);
    RunKeepsUnparseable(s, later, b.product, b.now + Longest(LimitsOf(s, b.product).Keys));
    HeaderIsListed(t, now, b.product);
    ClosedBy(t, now, r, ClosedUntil(t.unparseable[b.product], now));
  }

  lemma {:induction false} HeadersGrow(usage: Counters, hs: seq<Header>, now: int)
    ensures usage.Keys <= ReadHeaders(usage, hs, now).Keys
    ensures forall i :: 0 <= i < |hs| && Readable(hs[i]) ==>
              KeyOf(hs[i]) in ReadHeaders(usage, hs, now) && ReadHeaders(usage, hs, now)[KeyOf(hs[i])].at == now
  {
    if hs != [] {
      HeadersGrow(usage, hs[..|hs| - 1], now);
      assert forall i :: 0 <= i < |hs| - 1 ==> hs[i] == hs[..|hs| - 1][i];
    }
  }

  lemma {:induction false} RunKeepsCounter(s: State, rs: seq<Response>, p: Product, k: Key)
    requires k in CountersOf(s.usage, p)
    ensures k in CountersOf(Run(s, rs).usage, p)
    decreases |rs|
  {
    if rs != [] {
      HeadersGrow(CountersOf(s.usage, rs[0].product), rs[0].headers, rs[0].now);
      RunKeepsCounter(Responded(s, rs[0]), rs[1..], p, k);
    }
  }

  /** A counter seen in a header keeps the report at zero at any later time, with no
      expiry, as long as the definitions in force do not name its bucket. */
  lemma UndefinedCounterHolds(
    before: seq<Response>, b: Response, i: nat, later: seq<Response>, now: int, r: RateLimits)
    requires i < |b.headers| && Readable(b.headers[i]) && Parsed(b).Ok?
    requires var t := Run(Responded(Run(EMPTY, before), b), later);
             KeyOf(b.headers[i]) !in LimitsOf(t, b.product) && IsSnapshot(t, now, r)
    ensures r.remaining == 0
  {
    var s, k := Responded(Run(EMPTY, before), b), KeyOf(b.headers[i]);
    HeadersGrow(CountersOf(Run(EMPTY, before).usage, b.product), b.headers, b.now);
    RunKeepsCounter(s, later, b.product, k);
    var t := Run(s, later);
    UndefinedIsListed(t, now, b.product, k);
    ClosedBy(t, now, r, UndefinedCandidate(k, CountersOf(t.usage, b.product)[k]));
  }

  /** A list of definitions is refused exactly when one entry is malformed; then the
      response leaves no trace at all. */
  lemma MalformedLeavesNoTrace(s: State, r: Response)
    requires r.limits.Some?
    ensures Parsed(r).Err? <==> exists i :: 0 <= i < |r.limits.value| && Malformed(r.limits.value[i])
    ensures (exists i :: 0 <= i < |r.limits.value| && Malformed(r.limits.value[i])) ==> Responded(s, r) == s
  {
    ParseFailsIff(r.limits.value);
  }

  /** What a successful exchange-info response loses that way: every counter header
      it carried and its own raw request, both of which are recorded when the same
      response carries no definitions. */
  lemma MalformedLosesCounters(s: State, r: Response, i: nat, k: Key)
    requires r.limits.Some? && exists j :: 0 <= j < |r.limits.value| && Malformed(r.limits.value[j])
    requires i < |r.headers| && Readable(r.headers[i])
    requires k in LimitsOf(s, r.product) && k.kind.RawRequests?
    ensures var bare, h := Responded(s, r.(limits := None)), KeyOf(r.headers[i]);
            && Responded(s, r) == s
            && h in CountersOf(bare.usage, r.product) && CountersOf(bare.usage, r.product)[h].at == r.now
            && Find(CountersOf(bare.raw, r.product), k) ==
                 Some(Bumped(Find(CountersOf(s.raw, r.product), k), Interval(k), r.now))
  {
    ParseFailsIff(r.limits.value);
    HeadersGrow(CountersOf(s.usage, r.product), r.headers, r.now);
  }

  lemma {:induction false} ParseFailsIff(raws: seq<RawLimit>)
    ensures ParseDefinitions(raws).Err? <==> exists i :: 0 <= i < |raws| && Malformed(raws[i])
  {
    if raws != [] {
      var front := raws[..|raws| - 1];
      ParseFailsIff(front);
      if i :| 0 <= i < |front| && Malformed(front[i]) { assert Malformed(raws[i]); }
      if i :| 0 <= i < |raws| && Malformed(raws[i]) { assert i < |front| ==> Malformed(front[i]); }
    }
  }

  // ---- The local request counter ----

  lemma {:induction false} RunSnoc(s: State, rs: seq<Response>, r: Response)
    ensures Run(s, rs + [r]) == Responded(Run(s, rs), r)
    decreases |rs|
  {
    if rs == [] {
      assert [r][1..] == [];
    } else {
      assert (rs + [r])[1..] == rs[1..] + [r];
      RunSnoc(Responded(s, rs[0]), rs[1..], r);
    }
  }

  /** The response is recorded for this product. */
  predicate IsRecorded(r: Response, p: Product) {
    r.product == p && Parsed(r).Ok?
  }

  /** Responses of any products, with or without definitions; those of this product
      that bring definitions keep the bucket. */
  ghost predicate KeepsBucket(rs: seq<Response>, p: Product, k: Key) {
    forall i :: 0 <= i < |rs| && IsRecorded(rs[i], p) && Parsed(rs[i]).value != map[] ==> k in Parsed(rs[i]).value
  }

  lemma RawStep(s: State, r: Response, p: Product, k: Key)
    requires k in LimitsOf(s, p) && k.kind.RawRequests?
    requires IsRecorded(r, p) && Parsed(r).value != map[] ==> k in Parsed(r).value
    ensures k in LimitsOf(Responded(s, r), p)
    ensures Find(CountersOf(Responded(s, r).raw, p), k) ==
            if IsRecorded(r, p) then Some(Bumped(Find(CountersOf(s.raw, p), k), Interval(k), r.now)) else Find(CountersOf(s.raw, p), k)
  {
  }

  /** The instants of the product's recorded responses. */
  function Times(rs: seq<Response>, p: Product): seq<int> {
    if rs == [] then []
    else
      var front, last := Times(rs[..|rs| - 1], p), rs[|rs| - 1];
      if IsRecorded(last, p) then front + [last.now] else front
  }

  /** The counter after requests at these instants. */
  function Counted(interval: int, times: seq<int>): Option<Usage> {
    if times == [] then None else Some(Bumped(Counted(interval, times[..|times| - 1]), interval, times[|times| - 1]))
  }

  /** Request `j` opened the window: every later one fell inside it, and `j` is
      the first request or came after the interval of an earlier one had run out. */
  ghost predicate OpenedBy(times: seq<int>, j: nat, interval: int) {
    && j < |times|
    && (forall i :: j <= i < |times| ==> times[i] < times[j] + interval)
    && (j > 0 ==> exists i :: 0 <= i < j && times[j] >= times[i] + interval)
  }

  lemma OpenedSnoc(times: seq<int>, t: int, j: nat, interval: int)
    requires OpenedBy(times, j, interval) && interval > 0
    ensures t < times[j] + interval ==> OpenedBy(times + [t], j, interval)
    ensures t >= times[j] + interval ==> OpenedBy(times + [t], |times|, interval)
  {
    var all := times + [t];
    if t < times[j] + interval && j > 0 {
      var i :| 0 <= i < j && times[j] >= times[i] + interval;
      assert all[j] >= all[i] + interval;
    }
    if t >= times[j] + interval { assert all[|times|] >= all[j] + interval; }
  }

  lemma CountedSnoc(interval: int, times: seq<int>, t: int)
    ensures Counted(interval, times + [t]) == Some(Bumped(Counted(interval, times), interval, t))
  {
    assert (times + [t])[..|times|] == times;
  }

  /** Request `j` opened the window the counter is in. */
  ghost predicate CountsFrom(interval: int, times: seq<int>, j: nat) {
    OpenedBy(times, j, interval) && Counted(interval, times) == Some(Usage(Some(|times| - j), times[j]))
  }

  lemma CountedMore(interval: int, times: seq<int>, t: int, i: nat) returns (j: nat)
    requires CountsFrom(interval, times, i) && interval > 0
    ensures CountsFrom(interval, times + [t], j)
  {
    OpenedSnoc(times, t, i, interval);
    CountedSnoc(interval, times, t);
    j := if t >= times[i] + interval then |times| else i;
  }

  lemma CountedOne(interval: int, t: int)
    requires interval > 0
    ensures CountsFrom(interval, [t], 0)
  {
    assert [t][..0] == [];
  }

  lemma {:induction false} CountedSinceOpened(interval: int, front: seq<int>, t: int) returns (j: nat)
    requires interval > 0
    ensures CountsFrom(interval, front + [t], j)
    decreases |front|
  {
    if front == [] {
      CountedOne(interval, t);
      assert front + [t] == [t];
      j := 0;
    } else {
      var i := CountedSinceOpened(interval, front[..|front| - 1], front[|front| - 1]);
      assert front[..|front| - 1] + [front[|front| - 1]] == front;
      j := CountedMore(interval, front, t, i);
    }
  }

  lemma {:induction false} RawFollows(s: State, rs: seq<Response>, p: Product, k: Key)
    requires KeepsBucket(rs, p, k) && k in LimitsOf(s, p) && k.kind.RawRequests? && k !in CountersOf(s.raw, p)
    ensures k in LimitsOf(Run(s, rs), p)
    ensures Find(CountersOf(Run(s, rs).raw, p), k) == Counted(Interval(k), Times(rs, p))
    decreases |rs|
  {
    if rs != [] {
      var front, last := rs[..|rs| - 1], rs[|rs| - 1];
      assert rs == front + [last];
      RawFollows(s, front, p, k);
      RunSnoc(s, front, last);
      RawStep(Run(s, front), last, p, k);
      CountedSnoc(Interval(k), Times(front, p), last.now);
    }
  }

  /** The raw-request counter of a product counts every recorded request of it since
      the one that opened its window, whatever other products do in between, and no
      request falls outside the window it is counted in. */
  lemma RawCountIsExact(s: State, rs: seq<Response>, p: Product, k: Key) returns (j: nat)
    requires KeepsBucket(rs, p, k) && Times(rs, p) != []
    requires k in LimitsOf(s, p) && k.kind.RawRequests? && Interval(k) > 0 && k !in CountersOf(s.raw, p)
    ensures OpenedBy(Times(rs, p), j, Interval(k))
    ensures Observed(Run(s, rs), p, k) == Some(Usage(Some(|Times(rs, p)| - j), Times(rs, p)[j]))
  {
    RawFollows(s, rs, p, k);
    var times := Times(rs, p);
    assert times[..|times| - 1] + [times[|times| - 1]] == times;
    j := CountedSinceOpened(Interval(k), times[..|times| - 1], times[|times| - 1]);
  }

  // ---- The tracker, in place ----

  method MinBy(candidates: seq<Candidate>) returns (c: Candidate)
    requires candidates != []
    ensures c in candidates && forall d :: d in candidates ==> NotTighter(c, d)
  {
    c := candidates[0];
    for i := 1 to |candidates|
      invariant c in candidates
      invariant forall j :: 0 <= j < i ==> NotTighter(c, candidates[j])
    {
      if !NotTighter(c, candidates[i]) { c := candidates[i]; }
    }
  }

  method ListDefined(limits: Limits, usage: Counters, raw: Counters, now: int) returns (cs: seq<Candidate>)
    ensures forall c :: c in cs <==> exists k ::
              && k in limits && Find(if k.kind.RawRequests? then raw else usage, k).Some?
              && c == DefinedCandidate(k, limits[k], Find(if k.kind.RawRequests? then raw else usage, k).value, now)
  {
    cs := [];
    var todo := limits.Keys;
    while todo != {}
      invariant todo <= limits.Keys
      invariant forall c :: c in cs <==> exists k ::
                  && k in limits && k !in todo && Find(if k.kind.RawRequests? then raw else usage, k).Some?
                  && c == DefinedCandidate(k, limits[k], Find(if k.kind.RawRequests? then raw else usage, k).value, now)
    {
      var k :| k in todo;
      todo := todo - {k};
      var u := Find(if k.kind.RawRequests? then raw else usage, k);
      if u.Some? { cs := cs + [DefinedCandidate(k, limits[k], u.value, now)]; }
    }
  }

  method ListUndefined(limits: Limits, usage: Counters) returns (cs: seq<Candidate>)
    ensures forall c :: c in cs <==> exists k :: k in usage && k !in limits && c == UndefinedCandidate(k, usage[k])
  {
    cs := [];
    var todo := usage.Keys;
    while todo != {}
      invariant todo <= usage.Keys
      invariant forall c :: c in cs <==>
                  exists k :: k in usage && k !in todo && k !in limits && c == UndefinedCandidate(k, usage[k])
    {
      var k :| k in todo;
      todo := todo - {k};
      if k !in limits { cs := cs + [UndefinedCandidate(k, usage[k])]; }
    }
  }

  method ListProduct(s: State, p: Product, now: int) returns (cs: seq<Candidate>)
    ensures forall c :: c in cs <==> c in ProductCandidates(s, p, now)
  {
    var defined := ListDefined(LimitsOf(s, p), CountersOf(s.usage, p), CountersOf(s.raw, p), now);
    var undefined := ListUndefined(LimitsOf(s, p), CountersOf(s.usage, p));
    assert forall c :: c in defined <==> c in DefinedCandidates(s, p, now);
    assert forall c :: c in undefined <==> c in UndefinedCandidates(s, p);
    cs := defined + undefined;
    if p in s.unparseable && s.unparseable[p] > now { cs := cs + [ClosedUntil(s.unparseable[p], now)]; }
  }

  method ListCandidates(s: State, now: int) returns (cs: seq<Candidate>)
    ensures forall c :: c in cs <==> c in Candidates(s, now)
  {
    cs := [];
    var todo := Products(s);
    while todo != {}
      invariant todo <= Products(s)
      invariant forall c :: c in cs <==> exists p :: p in Products(s) && p !in todo && c in ProductCandidates(s, p, now)
    {
      var p :| p in todo;
      todo := todo - {p};
      var more := ListProduct(s, p, now);
      cs := cs + more;
    }
    if s.blocked.Some? && s.blocked.value > now { cs := cs + [ClosedUntil(s.blocked.value, now)]; }
  }

  /** Counts one request in every defined raw-request bucket. */
  method CountAll(raw: Counters, limits: Limits, now: int) returns (counts: Counters)
    ensures counts == CountRaw(raw, limits, now)
  {
    counts := raw;
    var todo := limits.Keys;
    while todo != {}
      invariant todo <= limits.Keys
      invariant counts == CountRaw(raw, limits - todo, now)
    {
      var k :| k in todo;
      CountOneMore(raw, limits, todo, k, now);
      todo := todo - {k};
      if k.kind.RawRequests? { counts := counts[k := Bumped(Find(counts, k), Interval(k), now)]; }
    }
    assert limits - {} == limits;
  }

  lemma CountOneMore(raw: Counters, limits: Limits, todo: set<Key>, k: Key, now: int)
    requires k in todo && k in limits
    ensures var was, counts := CountRaw(raw, limits - todo, now), CountRaw(raw, limits - (todo - {k}), now);
            counts == if k.kind.RawRequests? then was[k := Bumped(Find(was, k), Interval(k), now)] else was
  {
    var few, more := limits - todo, limits - (todo - {k});
    assert forall j :: j in more <==> j in few || j == k;
    assert Find(CountRaw(raw, few, now), k) == Find(raw, k);
  }

  class RateLimitTracker {
    var definitions: map<Product, Limits>
    var usage: map<Product, Counters>
    var raw: map<Product, Counters>
    var unparseable: map<Product, int>
    var blocked: Option<int>

    function Model(): State
      reads this
    {
      State(definitions, usage, raw, unparseable, blocked)
    }

    constructor ()
      ensures Model() == EMPTY
    {
      definitions, usage, raw, unparseable, blocked := map[], map[], map[], map[], None;
    }

    /** The tightest bucket's budget, never a success fallback. */
    method Snapshot(now: int) returns (r: RateLimits)
      ensures IsSnapshot(Model(), now, r)
    {
      var cs := ListCandidates(Model(), now);
      if cs == [] {
        assert Candidates(Model(), now) == {};
        return RateLimits(1, UNKNOWN_LIMIT_INTERVAL, 0, now);
      }
      var c := MinBy(cs);
      assert IsTightest(Model(), now, c);
      r := Report(c);
    }

    method CountRequest(p: Product, limits: Limits, now: int)
      modifies this`raw
      ensures raw == old(raw)[p := CountRaw(CountersOf(old(raw), p), limits, now)]
    {
      var counts := CountAll(CountersOf(raw, p), limits, now);
      raw := raw[p := counts];
    }

    method FailClosed(p: Product, limits: Limits, now: int)
      modifies this`unparseable
      ensures unparseable == old(unparseable)[p :=
                Later(if p in old(unparseable) then Some(old(unparseable)[p]) else None, now + Longest(limits.Keys))]
    {
      var after := LongestInterval(limits);
      var previous := if p in unparseable then Some(unparseable[p]) else None;
      unparseable := unparseable[p := Later(previous, now + after)];
    }

    /** Reads the counter headers in order; one that cannot be read fails closed. */
    method RecordHeaders(p: Product, limits: Limits, headers: seq<Header>, now: int)
      modifies this`usage, this`unparseable
      ensures usage == old(usage)[p := ReadHeaders(CountersOf(old(usage), p), headers, now)]
      ensures unparseable ==
              if AnyUnreadable(headers)
              then old(unparseable)[p :=
                Later(if p in old(unparseable) then Some(old(unparseable)[p]) else None, now + Longest(limits.Keys))]
              else old(unparseable)
    {
      var counts := CountersOf(usage, p);
      for i := 0 to |headers|
        modifies this`unparseable
        invariant counts == ReadHeaders(CountersOf(old(usage), p), headers[..i], now)
        invariant unparseable ==
                  if AnyUnreadable(headers[..i])
                  then old(unparseable)[p :=
                    Later(if p in old(unparseable) then Some(old(unparseable)[p]) else None, now + Longest(limits.Keys))]
                  else old(unparseable)
      {
        UnreadableSnoc(headers[..i], headers[i]);
        assert headers[..i + 1] == headers[..i] + [headers[i]];
        if Unreadable(headers[i]) {
          FailClosed(p, limits, now);
        } else if headers[i].Counter? {
          counts := counts[KeyOf(headers[i]) := Usage(headers[i].value, now)];
        }
      }
      assert headers[..|headers|] == headers;
      usage := usage[p := counts];
    }

    method RecordBlock(r: Response, limits: Limits)
      modifies this`blocked
      ensures blocked == if Limited(r.status) then Some(Later(old(blocked), r.now + BlockDelay(r, limits))) else old(blocked)
    {
      if !Limited(r.status) { return; }
      var delay := RetryDelay(r.retryAfter);
      var seconds: int;
      if delay.Some? {
        seconds := delay.value;
      } else if r.status == 418 {
        seconds := MAX_RETRY_AFTER_SECONDS * SECOND;
      } else {
        seconds := LongestInterval(limits);
      }
      blocked := Some(Later(blocked, r.now + seconds));
    }

    method Update(r: Response) returns (failed: bool)
      modifies this
      ensures failed <==> Parsed(r).Err?
      ensures Model() == Responded(old(Model()), r)
    {
      var parsed := Parsed(r);
      if parsed.Err? { return true; }
      definitions := Redefined(Model(), r, parsed.value);
      var limits := LimitsOf(Model(), r.product);
      CountRequest(r.product, limits, r.now);
      RecordHeaders(r.product, limits, r.headers, r.now);
      RecordBlock(r, limits);
      return false;
    }
  }

  lemma UnreadableSnoc(hs: seq<Header>, h: Header)
    ensures AnyUnreadable(hs + [h]) <==> AnyUnreadable(hs) || Unreadable(h)
  {
    var all := hs + [h];
    assert forall i :: 0 <= i < |hs| ==> all[i] == hs[i];
    assert all[|hs|] == h;
  }
}
