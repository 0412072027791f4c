/**
  The two rate limiters of the relay. Both keep one bucket per key in an insertion-ordered map
  that every call moves to the young end, drop the oldest bucket when the map outgrows its cap,
  and forget idle buckets in a sweep. `Policy` is what differs between them.
*/
module RateLimiterSpec {
  import opened Basics
  import opened OrderedMap

  datatype Answer<B> = Answer(bucket: B, allowed: bool)

  datatype Policy<!B> = Policy(ok: B -> bool, initial: int -> B, hit: (B, int) -> Answer<B>, stale: (B, int) -> bool)

  /** What makes forgetting a stale bucket invisible: its next hit answers like a first call. */
  ghost predicate Sound<B(!new)>(p: Policy<B>) {
    && (forall now :: p.ok(p.initial(now)))
    && (forall b, now :: p.ok(b) ==> p.ok(p.hit(b, now).bucket))
    && (forall b, t, now :: p.ok(b) && t <= now && p.stale(b, t) ==> p.hit(b, now) == Answer(p.initial(now), true))
  }

  datatype Window = Window(count: int, windowStartMs: int)

  function FixedPolicy(maxPerWindow: int, windowMs: int): Policy<Window> {
    Policy(
      (b: Window) => b.count >= 1,
      (now: int) => Window(1, now),
      (b: Window, now: int) => FixedHit(maxPerWindow, windowMs, b, now),
      (b: Window, now: int) => now - b.windowStartMs >= windowMs * 2)
  }

  function FixedHit(maxPerWindow: int, windowMs: int, b: Window, now: int): Answer<Window> {
    if now - b.windowStartMs >= windowMs then Answer(Window(1, now), true)
    else if b.count >= maxPerWindow then Answer(b, false)
    else Answer(b.(count := b.count + 1), true)
  }

  /** Tokens are counted in units of 1/refillWindowMs, so that a refill is exact: one token is
      `refillWindowMs` units and each elapsed millisecond adds `capacity` units. */
  datatype Tokens = Tokens(units: int, lastRefillMs: int)

  function TokenPolicy(capacity: int, refillWindowMs: int): Policy<Tokens> {
    Policy(
      (b: Tokens) => 0 <= b.units <= capacity * refillWindowMs,
      (now: int) => Tokens((capacity - 1) * refillWindowMs, now),
      (b: Tokens, now: int) => TokenHit(capacity, refillWindowMs, b, now),
      (b: Tokens, now: int) => now - b.lastRefillMs >= refillWindowMs * 2)
  }

  function Refill(capacity: int, refillWindowMs: int, b: Tokens, now: int): Tokens {
    if now <= b.lastRefillMs then b
    else Tokens(Min(capacity * refillWindowMs, b.units + (now - b.lastRefillMs) * capacity), now)
  }

  function TokenHit(capacity: int, refillWindowMs: int, b: Tokens, now: int): Answer<Tokens> {
    var r := Refill(capacity, refillWindowMs, b, now);
    if r.units < refillWindowMs then Answer(r, false) else Answer(r.(units := r.units - refillWindowMs), true)
  }

  function Min(a: int, b: int): int { if a < b then a else b }

  lemma FixedSound(maxPerWindow: int, windowMs: int)
    requires windowMs > 0
    ensures Sound(FixedPolicy(maxPerWindow, windowMs))
  {
  }

  lemma TokenSound(capacity: int, refillWindowMs: int)
    requires capacity > 0 && refillWindowMs > 0
    ensures Sound(TokenPolicy(capacity, refillWindowMs))
  {
    var p := TokenPolicy(capacity, refillWindowMs);
    assert (capacity - 1) * refillWindowMs == capacity * refillWindowMs - refillWindowMs;
    assert capacity * refillWindowMs >= refillWindowMs by { MulMono(1, capacity, refillWindowMs); }
    forall b, now | p.ok(b) ensures p.ok(p.hit(b, now).bucket) {
      RefillOk(capacity, refillWindowMs, b, now);
    }
    forall b, t, now | p.ok(b) && t <= now && p.stale(b, t)
      ensures p.hit(b, now) == Answer(p.initial(now), true)
    {
      RefillFull(capacity, refillWindowMs, b, now);
    }
  }

  lemma MulMono(a: int, b: int, c: int)
    requires a <= b && 0 <= c
    ensures a * c <= b * c
  {
  }

  lemma RefillOk(capacity: int, refillWindowMs: int, b: Tokens, now: int)
    requires capacity > 0 && 0 <= b.units <= capacity * refillWindowMs
    ensures 0 <= Refill(capacity, refillWindowMs, b, now).units <= capacity * refillWindowMs
  {
    if now > b.lastRefillMs {
      MulMono(0, now - b.lastRefillMs, capacity);
    }
  }

  lemma RefillFull(capacity: int, refillWindowMs: int, b: Tokens, now: int)
    requires capacity > 0 && refillWindowMs > 0 && 0 <= b.units
    requires now - b.lastRefillMs >= refillWindowMs * 2
    ensures Refill(capacity, refillWindowMs, b, now) == Tokens(capacity * refillWindowMs, now)
  {
    MulMono(refillWindowMs, now - b.lastRefillMs, capacity);
    assert refillWindowMs * capacity == capacity * refillWindowMs;
  }

  // ----- one step -----

  function Enforce<B>(m: OMap<string, B>, maxBuckets: Option<nat>): OMap<string, B> {
    if maxBuckets.None? then m else EvictTo(m, maxBuckets.value)
  }

  /** The table after a call, before the cap is enforced. */
  function Called<B>(p: Policy<B>, m: OMap<string, B>, key: string, now: int): OMap<string, B> {
    if key in m.data then Touch(m, key, p.hit(m.data[key], now).bucket) else Touch(m, key, p.initial(now))
  }

  function Allow<B>(p: Policy<B>, maxBuckets: Option<nat>, m: OMap<string, B>, key: string, now: int): (OMap<string, B>, bool) {
    if key in m.data then (Called(p, m, key, now), p.hit(m.data[key], now).allowed)
    else (Enforce(Called(p, m, key, now), maxBuckets), true)
  }

  function NotStale<B>(p: Policy<B>, now: int): B -> bool {
    b => !p.stale(b, now)
  }

  function Swept<B>(p: Policy<B>, m: OMap<string, B>, now: int): OMap<string, B> {
    Keep(m, NotStale(p, now))
  }

  // ----- runs -----

  datatype Op = Call(key: string, now: int) | SweepStale(now: int)

  ghost predicate Monotone(ops: seq<Op>) {
    forall i, j :: 0 <= i <= j < |ops| ==> ops[i].now <= ops[j].now
  }

  function Before<B>(p: Policy<B>, m: OMap<string, B>, op: Op): OMap<string, B> {
    match op
    case Call(key, now) => Called(p, m, key, now)
    case SweepStale(now) => Swept(p, m, now)
  }

  function Next<B>(p: Policy<B>, maxBuckets: Option<nat>, m: OMap<string, B>, op: Op): OMap<string, B> {
    match op
    case Call(key, now) => Allow(p, maxBuckets, m, key, now).0
    case SweepStale(now) => Enforce(Swept(p, m, now), maxBuckets)
  }

  function Table<B>(p: Policy<B>, maxBuckets: Option<nat>, ops: seq<Op>): OMap<string, B> {
    if ops == [] then Empty() else Next(p, maxBuckets, Table(p, maxBuckets, ops[..|ops| - 1]), ops[|ops| - 1])
  }

  /** The limiter's answer to the i-th operation of a run, a call. */
  function AnswerAt<B>(p: Policy<B>, maxBuckets: Option<nat>, ops: seq<Op>, i: nat): bool
    requires i < |ops| && ops[i].Call?
  {
    Allow(p, maxBuckets, Table(p, maxBuckets, ops[..i]), ops[i].key, ops[i].now).1
  }

  /** The limiter that never forgets: one bucket per key ever called, no cap and no sweep. */
  function Ideal<B>(p: Policy<B>, ops: seq<Op>, key: string): Option<B> {
    if ops == [] then None
    else
      var before := Ideal(p, ops[..|ops| - 1], key);
      var op := ops[|ops| - 1];
      if op.SweepStale? || op.key != key then before
      else if before.None? then Some(p.initial(op.now))
      else Some(p.hit(before.value, op.now).bucket)
  }

  function IdealAnswerAt<B>(p: Policy<B>, ops: seq<Op>, i: nat): bool
    requires i < |ops| && ops[i].Call?
  {
    var b := Ideal(p, ops[..i], ops[i].key);
    b.None? || p.hit(b.value, ops[i].now).allowed
  }

  /** The other keys called since the last call of key. */
  function Since(ops: seq<Op>, key: string): set<string> {
    if ops == [] then {}
    else
      var op := ops[|ops| - 1];
      if op.SweepStale? then Since(ops[..|ops| - 1], key)
      else if op.key == key then {}
      else Since(ops[..|ops| - 1], key) + {op.key}
  }

  predicate CalledIn(ops: seq<Op>, key: string) {
    exists i :: 0 <= i < |ops| && ops[i].Call? && ops[i].key == key
  }

  /** Since its last call, the cap has pushed key out of the table. */
  ghost predicate Displaced<B>(p: Policy<B>, maxBuckets: Option<nat>, ops: seq<Op>, key: string) {
    if ops == [] then false
    else
      var prefix := ops[..|ops| - 1];
      var op := ops[|ops| - 1];
      if op.Call? && op.key == key then false
      else
        || Displaced(p, maxBuckets, prefix, key)
        || (&& key in Before(p, Table(p, maxBuckets, prefix), op).data
            && key !in Table(p, maxBuckets, ops).data)
  }

  /** No call of key finds it displaced. */
  ghost predicate NeverDisplaced<B>(p: Policy<B>, maxBuckets: Option<nat>, ops: seq<Op>, key: string) {
    forall i :: 0 <= i < |ops| && ops[i] == Call(key, ops[i].now) ==> !Displaced(p, maxBuckets, ops[..i], key)
  }

  /** Fewer than maxBuckets other keys are called between two calls of key. */
  ghost predicate ReusedInTime(maxBuckets: Option<nat>, ops: seq<Op>, key: string) {
    forall i :: 0 <= i < |ops| && ops[i] == Call(key, ops[i].now) && CalledIn(ops[..i], key) ==>
      maxBuckets.None? || |Since(ops[..i], key)| < maxBuckets.value
  }

  // ----- the table against the ideal limiter -----

  ghost predicate StaleBy<B>(p: Policy<B>, b: B, ops: seq<Op>) {
    exists i :: 0 <= i < |ops| && p.stale(b, ops[i].now)
  }

  ghost predicate Tracks<B>(p: Policy<B>, maxBuckets: Option<nat>, ops: seq<Op>, key: string) {
    var m := Table(p, maxBuckets, ops);
    var ideal := Ideal(p, ops, key);
    && (key in m.data ==> ideal == Some(m.data[key]) && Younger(m.order, key) <= Since(ops, key))
    && (ideal.Some? ==> p.ok(ideal.value) && CalledIn(ops, key))
    && (ideal.Some? && key !in m.data ==> StaleBy(p, ideal.value, ops) || Displaced(p, maxBuckets, ops, key))
    && (Displaced(p, maxBuckets, ops, key) ==> maxBuckets.Some? && |Since(ops, key)| >= maxBuckets.value)
  }

  lemma {:induction false} TracksAlways<B(!new)>(p: Policy<B>, maxBuckets: Option<nat>, ops: seq<Op>, key: string)
    requires Sound(p) && Monotone(ops)
    requires maxBuckets.Some? ==> maxBuckets.value > 0
    requires NeverDisplaced(p, maxBuckets, ops, key)
    ensures Tracks(p, maxBuckets, ops, key)
  {
    if ops != [] {
      var n := |ops| - 1;
      var prefix := ops[..n];
      assert forall i :: 0 <= i < n ==> prefix[i] == ops[i] && prefix[..i] == ops[..i];
      TracksAlways(p, maxBuckets, prefix, key);
      if ops[n].Call? && ops[n].key == key {
        assert ops[n] == Call(key, ops[n].now);
        TracksOwnCall(p, maxBuckets, ops, key);
      } else {
        TracksOther(p, maxBuckets, ops, key);
      }
    }
  }

  lemma StaleByGrows<B>(p: Policy<B>, b: B, ops: seq<Op>, n: nat)
    requires n <= |ops| && StaleBy(p, b, ops[..n])
    ensures StaleBy(p, b, ops)
  {
    var i :| 0 <= i < n && p.stale(b, ops[..n][i].now);
    assert ops[..n][i] == ops[i];
  }

  /** A call of the key: the answer is the ideal one, and the bucket left behind is too. */
  lemma TracksOwnCall<B(!new)>(p: Policy<B>, maxBuckets: Option<nat>, ops: seq<Op>, key: string)
    requires Sound(p) && Monotone(ops)
    requires maxBuckets.Some? ==> maxBuckets.value > 0
    requires ops != [] && ops[|ops| - 1].Call? && ops[|ops| - 1].key == key
    requires Tracks(p, maxBuckets, ops[..|ops| - 1], key)
    requires !Displaced(p, maxBuckets, ops[..|ops| - 1], key)
    ensures Tracks(p, maxBuckets, ops, key)
    ensures AnswerAt(p, maxBuckets, ops, |ops| - 1) == IdealAnswerAt(p, ops, |ops| - 1)
  {
    hide Allow, Sound, Monotone, StaleBy;
    SoundKeepsOk(p, ops[|ops| - 1].now);
    var n := |ops| - 1;
    var prefix := ops[..n];
    var m := Table(p, maxBuckets, prefix);
    ForgottenIsStale(p, maxBuckets, ops, key);
    OwnCallTable(p, maxBuckets, m, key, ops[n].now);
    OwnCallAnswer(p, maxBuckets, m, key, ops[n].now);
    assert CalledIn(ops, key);
  }

  lemma SoundKeepsOk<B(!new)>(p: Policy<B>, now: int)
    requires Sound(p)
    ensures p.ok(p.initial(now)) && forall b :: p.ok(b) ==> p.ok(p.hit(b, now).bucket)
  {
  }

  lemma OwnCallAnswer<B(!new)>(p: Policy<B>, maxBuckets: Option<nat>, m: OMap<string, B>, key: string, now: int)
    ensures Allow(p, maxBuckets, m, key, now).1 == (key !in m.data || p.hit(m.data[key], now).allowed)
  {
  }

  /** A bucket the table has forgotten, though it was not displaced, was stale, so a call of its key
      would have answered as on a missing bucket. */
  lemma ForgottenIsStale<B(!new)>(p: Policy<B>, maxBuckets: Option<nat>, ops: seq<Op>, key: string)
    requires Sound(p) && Monotone(ops) && ops != []
    requires Tracks(p, maxBuckets, ops[..|ops| - 1], key) && !Displaced(p, maxBuckets, ops[..|ops| - 1], key)
    ensures var n := |ops| - 1; var ideal := Ideal(p, ops[..n], key); var now := ops[n].now;
            && (key in Table(p, maxBuckets, ops[..n]).data ==> ideal == Some(Table(p, maxBuckets, ops[..n]).data[key]))
            && (key !in Table(p, maxBuckets, ops[..n]).data && ideal.Some? ==>
                  p.hit(ideal.value, now).allowed && p.hit(ideal.value, now).bucket == p.initial(now))
  {
    hide Table, Ideal;
    var n := |ops| - 1;
    var prefix := ops[..n];
    var ideal := Ideal(p, prefix, key);
    if ideal.Some? && key !in Table(p, maxBuckets, prefix).data {
      var i :| 0 <= i < |prefix| && p.stale(ideal.value, prefix[i].now);
      assert prefix[i] == ops[i];
    }
  }

  lemma OwnCallTable<B(!new)>(p: Policy<B>, maxBuckets: Option<nat>, m: OMap<string, B>, key: string, now: int)
    requires maxBuckets.Some? ==> maxBuckets.value > 0
    ensures var r := Allow(p, maxBuckets, m, key, now).0;
            && key in r.data
            && r.data[key] == (if key in m.data then p.hit(m.data[key], now).bucket else p.initial(now))
            && Younger(r.order, key) == {}
  {
    var c := Called(p, m, key, now);
    YoungerAppend(Without(m.order, key), key, key);
    assert Younger(c.order, key) == {};
    if key !in m.data && maxBuckets.Some? {
      EvictKeeps(c, maxBuckets.value, key);
    }
  }

  /** Any other operation: the key's bucket stays, or is swept, or is displaced by the cap. */
  lemma TracksOther<B(!new)>(p: Policy<B>, maxBuckets: Option<nat>, ops: seq<Op>, key: string)
    requires Sound(p)
    requires maxBuckets.Some? ==> maxBuckets.value > 0
    requires ops != [] && (ops[|ops| - 1].SweepStale? || ops[|ops| - 1].key != key)
    requires Tracks(p, maxBuckets, ops[..|ops| - 1], key)
    ensures Tracks(p, maxBuckets, ops, key)
  {
    var n := |ops| - 1;
    var prefix := ops[..n];
    var m := Table(p, maxBuckets, prefix);
    var c := Before(p, m, ops[n]);
    var ideal := Ideal(p, ops, key);
    BeforeOther(p, m, ops[n], key);
    assert Since(ops, key) >= Since(prefix, key);
    SubsetSize(Since(prefix, key), Since(ops, key));
    if ideal.Some? {
      var i :| 0 <= i < |prefix| && prefix[i].Call? && prefix[i].key == key;
      assert ops[i] == prefix[i];
    }
    if ideal.Some? && StaleBy(p, ideal.value, prefix) {
      StaleByGrows(p, ideal.value, ops, n);
    }
    if key in c.data {
      SubsetSize(Younger(c.order, key), Since(ops, key));
      if maxBuckets.Some? {
        EvictKeeps(c, maxBuckets.value, key);
      }
    } else if key in m.data {
      assert p.stale(ideal.value, ops[n].now);
    }
  }

  lemma BeforeOther<B(!new)>(p: Policy<B>, m: OMap<string, B>, op: Op, key: string)
    requires op.SweepStale? || op.key != key
    ensures key in Before(p, m, op).data ==> key in m.data && Before(p, m, op).data[key] == m.data[key]
    ensures key in m.data && key !in Before(p, m, op).data ==> op.SweepStale? && p.stale(m.data[key], op.now)
    ensures key in Before(p, m, op).data ==>
              Younger(Before(p, m, op).order, key) <= Younger(m.order, key) + if op.Call? then {op.key} else {}
  {
    if key in m.data {
      assert key in Elements(m.order);
      if op.Call? {
        YoungerTouch(m, op.key, if op.key in m.data then p.hit(m.data[op.key], op.now).bucket else p.initial(op.now), key);
      } else if !p.stale(m.data[key], op.now) {
        YoungerKeep(m.order, m.data, NotStale(p, op.now), key);
      }
    }
  }

  /** While the cap never displaces a key before it is called again, the limiter answers every
      call of that key as if it forgot nothing, whatever the sweeps. */
  lemma AnswersLikeIdeal<B(!new)>(p: Policy<B>, maxBuckets: Option<nat>, ops: seq<Op>, key: string, i: nat)
    requires Sound(p) && Monotone(ops)
    requires maxBuckets.Some? ==> maxBuckets.value > 0
    requires NeverDisplaced(p, maxBuckets, ops, key)
    requires i < |ops| && ops[i].Call? && ops[i].key == key
    ensures AnswerAt(p, maxBuckets, ops, i) == IdealAnswerAt(p, ops, i)
  {
    hide Tracks, Table, Ideal, Allow, Sound, Displaced;
    var upTo := ops[..i + 1];
    assert upTo[..i] == ops[..i];
    assert forall j :: 0 <= j < i ==> ops[..i][j] == ops[j] && ops[..i][..j] == ops[..j];
    TracksAlways(p, maxBuckets, ops[..i], key);
    assert ops[i] == Call(key, ops[i].now);
    TracksOwnCall(p, maxBuckets, upTo, key);
  }

  /** A key that comes back before maxBuckets other keys were called is never displaced. */
  lemma {:induction false} ReusedInTimeIsNeverDisplaced<B(!new)>(p: Policy<B>, maxBuckets: Option<nat>, ops: seq<Op>, key: string)
    requires Sound(p) && Monotone(ops)
    requires maxBuckets.Some? ==> maxBuckets.value > 0
    requires ReusedInTime(maxBuckets, ops, key)
    ensures NeverDisplaced(p, maxBuckets, ops, key)
    decreases |ops|
  {
    forall i | 0 <= i < |ops| && ops[i] == Call(key, ops[i].now)
      ensures !Displaced(p, maxBuckets, ops[..i], key)
    {
      var prefix := ops[..i];
      assert forall j :: 0 <= j < i ==> prefix[j] == ops[j] && prefix[..j] == ops[..j];
      ReusedInTimeIsNeverDisplaced(p, maxBuckets, prefix, key);
      TracksAlways(p, maxBuckets, prefix, key);
      if !CalledIn(prefix, key) {
        NotDisplacedBeforeFirstCall(p, maxBuckets, prefix, key);
      }
    }
  }

  lemma {:induction false} NotDisplacedBeforeFirstCall<B(!new)>(p: Policy<B>, maxBuckets: Option<nat>, ops: seq<Op>, key: string)
    requires !CalledIn(ops, key)
    ensures !Displaced(p, maxBuckets, ops, key) && key !in Table(p, maxBuckets, ops).data
  {
    if ops != [] {
      var prefix := ops[..|ops| - 1];
      assert forall j :: 0 <= j < |prefix| ==> prefix[j] == ops[j];
      NotDisplacedBeforeFirstCall(p, maxBuckets, prefix, key);
      BeforeOther(p, Table(p, maxBuckets, prefix), ops[|ops| - 1], key);
    }
  }

  /** Both together: in every run where fewer than maxBuckets other keys are called between two
      calls of a key, its answers are those of the limiter that never forgets. */
  lemma CappedEqualsIdeal<B(!new)>(p: Policy<B>, maxBuckets: Option<nat>, ops: seq<Op>, key: string, i: nat)
    requires Sound(p) && Monotone(ops)
    requires maxBuckets.Some? ==> maxBuckets.value > 0
    requires ReusedInTime(maxBuckets, ops, key)
    requires i < |ops| && ops[i].Call? && ops[i].key == key
    ensures AnswerAt(p, maxBuckets, ops, i) == IdealAnswerAt(p, ops, i)
  {
    ReusedInTimeIsNeverDisplaced(p, maxBuckets, ops, key);
    AnswersLikeIdeal(p, maxBuckets, ops, key, i);
  }

  // ----- how much a span of time can grant -----

  /** How many of the operations lo..hi are calls of key that the limiter allows. */
  function Grants<B>(p: Policy<B>, maxBuckets: Option<nat>, ops: seq<Op>, key: string, lo: nat, hi: nat): nat
    requires lo <= hi <= |ops|
    decreases hi - lo
  {
    if lo == hi then 0
    else
      var granted := ops[hi - 1].Call? && ops[hi - 1].key == key && AnswerAt(p, maxBuckets, ops, hi - 1);
      Grants(p, maxBuckets, ops, key, lo, hi - 1) + if granted then 1 else 0
  }

  lemma IdealStep<B>(p: Policy<B>, ops: seq<Op>, key: string, n: nat)
    requires n < |ops|
    ensures Ideal(p, ops[..n + 1], key) ==
            if ops[n].SweepStale? || ops[n].key != key then Ideal(p, ops[..n], key)
            else if Ideal(p, ops[..n], key).None? then Some(p.initial(ops[n].now))
            else Some(p.hit(Ideal(p, ops[..n], key).value, ops[n].now).bucket)
  {
    assert ops[..n + 1][..n] == ops[..n];
  }

  lemma {:induction false} FixedIdealBounds(maxPerWindow: int, windowMs: int, ops: seq<Op>, key: string, n: nat)
    requires maxPerWindow > 0 && Monotone(ops) && n <= |ops|
    ensures var b := Ideal(FixedPolicy(maxPerWindow, windowMs), ops[..n], key);
            b.Some? ==> 1 <= b.value.count <= maxPerWindow
    ensures var b := Ideal(FixedPolicy(maxPerWindow, windowMs), ops[..n], key);
            b.Some? ==> forall i :: n <= i < |ops| ==> b.value.windowStartMs <= ops[i].now
  {
    if n > 0 {
      FixedIdealBounds(maxPerWindow, windowMs, ops, key, n - 1);
      IdealStep(FixedPolicy(maxPerWindow, windowMs), ops, key, n - 1);
    }
  }

  /** Grants since `from` are covered by the current window and, when it began inside the span, one more. */
  ghost predicate Covered(maxPerWindow: int, b: Option<Window>, g: nat, from: int) {
    if b.None? then g == 0
    else if b.value.windowStartMs >= from then g <= maxPerWindow + b.value.count
    else g <= b.value.count
  }

  lemma {:induction false} FixedSpan(maxPerWindow: int, windowMs: int, maxBuckets: Option<nat>, ops: seq<Op>, key: string, lo: nat, hi: nat)
    requires maxPerWindow > 0 && windowMs > 0 && Monotone(ops)
    requires maxBuckets.Some? ==> maxBuckets.value > 0
    requires NeverDisplaced(FixedPolicy(maxPerWindow, windowMs), maxBuckets, ops, key)
    requires lo <= hi <= |ops| && lo < |ops|
    requires lo < hi ==> ops[hi - 1].now - ops[lo].now < windowMs
    ensures var p := FixedPolicy(maxPerWindow, windowMs);
            Covered(maxPerWindow, Ideal(p, ops[..hi], key), Grants(p, maxBuckets, ops, key, lo, hi), ops[lo].now)
    decreases hi
  {
    if lo == hi {
      FixedIdealBounds(maxPerWindow, windowMs, ops, key, hi);
    } else {
      assert lo < hi - 1 ==> ops[hi - 2].now <= ops[hi - 1].now;
      FixedSpan(maxPerWindow, windowMs, maxBuckets, ops, key, lo, hi - 1);
      FixedSpanStep(maxPerWindow, windowMs, maxBuckets, ops, key, lo, hi - 1);
    }
  }

  lemma FixedSpanStep(maxPerWindow: int, windowMs: int, maxBuckets: Option<nat>, ops: seq<Op>, key: string, lo: nat, n: nat)
    requires maxPerWindow > 0 && windowMs > 0 && Monotone(ops)
    requires maxBuckets.Some? ==> maxBuckets.value > 0
    requires NeverDisplaced(FixedPolicy(maxPerWindow, windowMs), maxBuckets, ops, key)
    requires lo <= n < |ops| && ops[n].now - ops[lo].now < windowMs
    requires var p := FixedPolicy(maxPerWindow, windowMs);
             Covered(maxPerWindow, Ideal(p, ops[..n], key), Grants(p, maxBuckets, ops, key, lo, n), ops[lo].now)
    ensures var p := FixedPolicy(maxPerWindow, windowMs);
            Covered(maxPerWindow, Ideal(p, ops[..n + 1], key), Grants(p, maxBuckets, ops, key, lo, n + 1), ops[lo].now)
  {
    var p := FixedPolicy(maxPerWindow, windowMs);
    IdealStep(p, ops, key, n);
    if ops[n].Call? && ops[n].key == key {
      FixedSound(maxPerWindow, windowMs);
      AnswersLikeIdeal(p, maxBuckets, ops, key, n);
      FixedIdealBounds(maxPerWindow, windowMs, ops, key, n);
      FixedCall(maxPerWindow, windowMs, Ideal(p, ops[..n], key), Grants(p, maxBuckets, ops, key, lo, n), ops[lo].now, ops[n].now);
    }
  }

  lemma FixedCall(maxPerWindow: int, windowMs: int, b: Option<Window>, g: nat, from: int, now: int)
    requires maxPerWindow > 0 && windowMs > 0 && from <= now && now - from < windowMs
    requires b.Some? ==> 1 <= b.value.count <= maxPerWindow && b.value.windowStartMs <= now
    requires Covered(maxPerWindow, b, g, from)
    ensures var p := FixedPolicy(maxPerWindow, windowMs);
            var granted := b.None? || p.hit(b.value, now).allowed;
            var after := if b.None? then p.initial(now) else p.hit(b.value, now).bucket;
            Covered(maxPerWindow, Some(after), g + if granted then 1 else 0, from)
  {
  }

  /** A key the cap never displaces is granted at most twice its quota by calls less than one
      window apart, across resets and sweeps. */
  lemma FixedWindowBound(maxPerWindow: int, windowMs: int, maxBuckets: Option<nat>, ops: seq<Op>, key: string, lo: nat, hi: nat)
    requires maxPerWindow > 0 && windowMs > 0 && Monotone(ops)
    requires maxBuckets.Some? ==> maxBuckets.value > 0
    requires NeverDisplaced(FixedPolicy(maxPerWindow, windowMs), maxBuckets, ops, key)
    requires lo < hi <= |ops| && ops[hi - 1].now - ops[lo].now < windowMs
    ensures Grants(FixedPolicy(maxPerWindow, windowMs), maxBuckets, ops, key, lo, hi) <= 2 * maxPerWindow
  {
    FixedSpan(maxPerWindow, windowMs, maxBuckets, ops, key, lo, hi);
    FixedIdealBounds(maxPerWindow, windowMs, ops, key, hi);
  }

  /** The ideal bucket at any point of a run: never above capacity, never refilled in the future. */
  lemma {:induction false} TokenIdealBounds(capacity: int, refillWindowMs: int, ops: seq<Op>, key: string, n: nat)
    requires capacity > 0 && refillWindowMs > 0 && Monotone(ops) && n <= |ops|
    ensures var b := Ideal(TokenPolicy(capacity, refillWindowMs), ops[..n], key);
            b.Some? ==> 0 <= b.value.units <= capacity * refillWindowMs
    ensures var b := Ideal(TokenPolicy(capacity, refillWindowMs), ops[..n], key);
            b.Some? ==> forall i :: n <= i < |ops| ==> b.value.lastRefillMs <= ops[i].now
  {
    if n > 0 {
      var p := TokenPolicy(capacity, refillWindowMs);
      TokenIdealBounds(capacity, refillWindowMs, ops, key, n - 1);
      IdealStep(p, ops, key, n - 1);
      TokenSound(capacity, refillWindowMs);
      assert forall b :: p.ok(b) <==> 0 <= b.units <= capacity * refillWindowMs;
      var b := Ideal(p, ops[..n - 1], key);
      if ops[n - 1].Call? && ops[n - 1].key == key {
        assert b.Some? ==> p.ok(b.value);
        assert p.ok(p.initial(ops[n - 1].now));
      }
    }
  }

  /** Units paid out since `from` plus units left never exceed a full bucket plus what time has refilled. */
  ghost predicate Paid(capacity: int, refillWindowMs: int, b: Option<Tokens>, g: nat, from: int) {
    if b.None? || b.value.lastRefillMs < from then g == 0
    else g * refillWindowMs + b.value.units
         <= capacity * refillWindowMs + capacity * (b.value.lastRefillMs - from)
  }

  lemma NothingPaid(capacity: int, refillWindowMs: int, b: Option<Tokens>, from: int)
    requires b.Some? ==> 0 <= b.value.units <= capacity * refillWindowMs && b.value.lastRefillMs <= from
    ensures Paid(capacity, refillWindowMs, b, 0, from)
  {
  }

  lemma {:induction false} TokenSpan(capacity: int, refillWindowMs: int, maxBuckets: Option<nat>, ops: seq<Op>, key: string, lo: nat, hi: nat)
    requires capacity > 0 && refillWindowMs > 0 && Monotone(ops)
    requires maxBuckets.Some? ==> maxBuckets.value > 0
    requires NeverDisplaced(TokenPolicy(capacity, refillWindowMs), maxBuckets, ops, key)
    requires lo <= hi <= |ops| && lo < |ops|
    ensures var p := TokenPolicy(capacity, refillWindowMs);
            Paid(capacity, refillWindowMs, Ideal(p, ops[..hi], key), Grants(p, maxBuckets, ops, key, lo, hi), ops[lo].now)
    decreases hi
  {
    var p := TokenPolicy(capacity, refillWindowMs);
    if lo == hi {
      TokenIdealBounds(capacity, refillWindowMs, ops, key, lo);
      NothingPaid(capacity, refillWindowMs, Ideal(p, ops[..lo], key), ops[lo].now);
    } else {
      var n := hi - 1;
      TokenSpan(capacity, refillWindowMs, maxBuckets, ops, key, lo, n);
      TokenSpanStep(capacity, refillWindowMs, maxBuckets, ops, key, lo, n);
    }
  }

  lemma TokenSpanStep(capacity: int, refillWindowMs: int, maxBuckets: Option<nat>, ops: seq<Op>, key: string, lo: nat, n: nat)
    requires capacity > 0 && refillWindowMs > 0 && Monotone(ops)
    requires maxBuckets.Some? ==> maxBuckets.value > 0
    requires NeverDisplaced(TokenPolicy(capacity, refillWindowMs), maxBuckets, ops, key)
    requires lo <= n < |ops|
    requires var p := TokenPolicy(capacity, refillWindowMs);
             Paid(capacity, refillWindowMs, Ideal(p, ops[..n], key), Grants(p, maxBuckets, ops, key, lo, n), ops[lo].now)
    ensures var p := TokenPolicy(capacity, refillWindowMs);
            Paid(capacity, refillWindowMs, Ideal(p, ops[..n + 1], key), Grants(p, maxBuckets, ops, key, lo, n + 1), ops[lo].now)
  {
    hide TokenPolicy, NeverDisplaced, Ideal, Paid, Sound, AnswerAt;
    var p := TokenPolicy(capacity, refillWindowMs);
    IdealStep(p, ops, key, n);
    if ops[n].Call? && ops[n].key == key {
      TokenSound(capacity, refillWindowMs);
      AnswersLikeIdeal(p, maxBuckets, ops, key, n);
      TokenIdealBounds(capacity, refillWindowMs, ops, key, n);
      TokenCall(capacity, refillWindowMs, Ideal(p, ops[..n], key), Grants(p, maxBuckets, ops, key, lo, n), ops[lo].now, ops[n].now);
    }
  }

  /** One call, on the inequality of TokenSpan; `paid` is the number of earlier grants in the span. */
  lemma TokenCall(capacity: int, refillWindowMs: int, b: Option<Tokens>, paid: nat, from: int, now: int)
    requires capacity > 0 && refillWindowMs > 0 && from <= now
    requires b.Some? ==> 0 <= b.value.units <= capacity * refillWindowMs && b.value.lastRefillMs <= now
    requires Paid(capacity, refillWindowMs, b, paid, from)
    ensures var p := TokenPolicy(capacity, refillWindowMs);
            var granted := b.None? || p.hit(b.value, now).allowed;
            var after := if b.None? then p.initial(now) else p.hit(b.value, now).bucket;
            after.lastRefillMs == now && Paid(capacity, refillWindowMs, Some(after), paid + if granted then 1 else 0, from)
  {
    MulMono(0, now - from, capacity);
    assert capacity * (now - from) == (now - from) * capacity;
    assert (paid + 1) * refillWindowMs == paid * refillWindowMs + refillWindowMs;
    assert (capacity - 1) * refillWindowMs == capacity * refillWindowMs - refillWindowMs;
    if b.Some? && b.value.lastRefillMs >= from {
      var last := b.value.lastRefillMs;
      assert capacity * (now - from) == capacity * (last - from) + (now - last) * capacity;
    }
  }

  /** Token-bucket grants between two calls d milliseconds apart are at most
      capacity + capacity * d / refillWindowMs. */
  lemma TokenBucketBound(capacity: int, refillWindowMs: int, maxBuckets: Option<nat>, ops: seq<Op>, key: string, lo: nat, hi: nat)
    requires capacity > 0 && refillWindowMs > 0 && Monotone(ops)
    requires maxBuckets.Some? ==> maxBuckets.value > 0
    requires NeverDisplaced(TokenPolicy(capacity, refillWindowMs), maxBuckets, ops, key)
    requires lo < hi <= |ops|
    ensures Grants(TokenPolicy(capacity, refillWindowMs), maxBuckets, ops, key, lo, hi) * refillWindowMs
            <= capacity * refillWindowMs + capacity * (ops[hi - 1].now - ops[lo].now)
  {
    hide TokenPolicy, NeverDisplaced, Ideal, Grants;
    var p := TokenPolicy(capacity, refillWindowMs);
    var d := ops[hi - 1].now - ops[lo].now;
    TokenSpan(capacity, refillWindowMs, maxBuckets, ops, key, lo, hi);
    MulMono(0, d, capacity);
    assert capacity * d == d * capacity;
    MulMono(0, refillWindowMs, capacity);
    assert capacity * refillWindowMs == refillWindowMs * capacity;
    TokenRefilledBy(capacity, refillWindowMs, ops, key, hi);
    var b := Ideal(p, ops[..hi], key);
    TokenIdealBounds(capacity, refillWindowMs, ops, key, hi);
    if b.Some? && b.value.lastRefillMs >= ops[lo].now {
      MulMono(b.value.lastRefillMs - ops[lo].now, d, capacity);
      assert capacity * (b.value.lastRefillMs - ops[lo].now) == (b.value.lastRefillMs - ops[lo].now) * capacity;
    }
  }

  lemma {:induction false} TokenRefilledBy(capacity: int, refillWindowMs: int, ops: seq<Op>, key: string, n: nat)
    requires capacity > 0 && refillWindowMs > 0 && Monotone(ops) && 0 < n <= |ops|
    ensures var b := Ideal(TokenPolicy(capacity, refillWindowMs), ops[..n], key);
            b.Some? ==> b.value.lastRefillMs <= ops[n - 1].now
  {
    TokenIdealBounds(capacity, refillWindowMs, ops, key, n - 1);
    IdealStep(TokenPolicy(capacity, refillWindowMs), ops, key, n - 1);
  }
}
