/** Which calls the two limiters refuse, in terms of earlier calls and answers alone. */
module RateLimiterAnswers {
  import opened Basics
  import opened OrderedMap
  import opened RateLimiterSpec

  predicate CallsAt(ops: seq<Op>, key: string, i: nat) {
    i < |ops| && ops[i].Call? && ops[i].key == key
  }

  lemma GrantsStep<B>(p: Policy<B>, maxBuckets: Option<nat>, ops: seq<Op>, key: string, lo: nat, n: nat)
    requires lo <= n < |ops|
    ensures Grants(p, maxBuckets, ops, key, lo, n + 1) ==
            Grants(p, maxBuckets, ops, key, lo, n) + if CallsAt(ops, key, n) && AnswerAt(p, maxBuckets, ops, n) then 1 else 0
    ensures Grants(p, maxBuckets, ops, key, lo, lo) == 0
  {
  }

  // ----- fixed windows -----

  /** The call opens a window: every window of its key that was opened before is over. */
  ghost predicate Opens(windowMs: int, ops: seq<Op>, key: string, i: nat)
    decreases i
  {
    && CallsAt(ops, key, i)
    && forall lo: nat :: lo < i && Opens(windowMs, ops, key, lo) ==> ops[i].now - ops[lo].now >= windowMs
  }

  /** The bucket is that of the window opened last, with the grants since. */
  ghost predicate Current(maxPerWindow: int, windowMs: int, maxBuckets: Option<nat>, ops: seq<Op>, key: string, n: nat, lo: nat)
    requires lo < n <= |ops|
  {
    var b := Ideal(FixedPolicy(maxPerWindow, windowMs), ops[..n], key);
    && Opens(windowMs, ops, key, lo) && (forall l: nat :: lo < l < n ==> !Opens(windowMs, ops, key, l))
    && b == Some(Window(Grants(FixedPolicy(maxPerWindow, windowMs), maxBuckets, ops, key, lo, n), ops[lo].now))
  }

  ghost predicate NoneOpened(maxPerWindow: int, windowMs: int, ops: seq<Op>, key: string, n: nat)
    requires n <= |ops|
  {
    Ideal(FixedPolicy(maxPerWindow, windowMs), ops[..n], key).None? && forall l: nat :: l < n ==> !CallsAt(ops, key, l)
  }

  ghost predicate Windows(maxPerWindow: int, windowMs: int, maxBuckets: Option<nat>, ops: seq<Op>, key: string, n: nat)
    requires n <= |ops|
  {
    NoneOpened(maxPerWindow, windowMs, ops, key, n) || exists lo: nat :: lo < n && Current(maxPerWindow, windowMs, maxBuckets, ops, key, n, lo)
  }

  ghost predicate Usable<B(!new)>(p: Policy<B>, maxBuckets: Option<nat>, ops: seq<Op>, key: string) {
    Sound(p) && Monotone(ops) && (maxBuckets.Some? ==> maxBuckets.value > 0) && NeverDisplaced(p, maxBuckets, ops, key)
  }

  lemma CallAnswer<B(!new)>(p: Policy<B>, maxBuckets: Option<nat>, ops: seq<Op>, key: string, i: nat)
    requires Usable(p, maxBuckets, ops, key) && CallsAt(ops, key, i)
    ensures var b := Ideal(p, ops[..i], key);
            && AnswerAt(p, maxBuckets, ops, i) == (b.None? || p.hit(b.value, ops[i].now).allowed)
            && Ideal(p, ops[..i + 1], key) == Some(if b.None? then p.initial(ops[i].now) else p.hit(b.value, ops[i].now).bucket)
  {
    hide Sound, Monotone, NeverDisplaced, AnswerAt, Ideal;
    AnswersLikeIdeal(p, maxBuckets, ops, key, i);
    IdealStep(p, ops, key, i);
  }

  lemma {:induction false} WindowsAlways(maxPerWindow: int, windowMs: int, maxBuckets: Option<nat>, ops: seq<Op>, key: string, n: nat)
    requires windowMs > 0 && Usable(FixedPolicy(maxPerWindow, windowMs), maxBuckets, ops, key) && n <= |ops|
    ensures Windows(maxPerWindow, windowMs, maxBuckets, ops, key, n)
  {
    hide Usable, Current, NoneOpened, Opens;
    if n == 0 {
      NothingYet(maxPerWindow, windowMs, ops, key);
    } else {
      WindowsAlways(maxPerWindow, windowMs, maxBuckets, ops, key, n - 1);
      if NoneOpened(maxPerWindow, windowMs, ops, key, n - 1) {
        FirstWindow(maxPerWindow, windowMs, maxBuckets, ops, key, n - 1);
      } else {
        var lo: nat :| lo < n - 1 && Current(maxPerWindow, windowMs, maxBuckets, ops, key, n - 1, lo);
        var l := NextWindow(maxPerWindow, windowMs, maxBuckets, ops, key, n - 1, lo);
      }
    }
  }

  lemma NothingYet(maxPerWindow: int, windowMs: int, ops: seq<Op>, key: string)
    ensures NoneOpened(maxPerWindow, windowMs, ops, key, 0)
  {
  }

  lemma FirstWindow(maxPerWindow: int, windowMs: int, maxBuckets: Option<nat>, ops: seq<Op>, key: string, n: nat)
    requires Usable(FixedPolicy(maxPerWindow, windowMs), maxBuckets, ops, key) && n < |ops|
    requires NoneOpened(maxPerWindow, windowMs, ops, key, n)
    ensures NoneOpened(maxPerWindow, windowMs, ops, key, n + 1) || Current(maxPerWindow, windowMs, maxBuckets, ops, key, n + 1, n)
  {
    hide Usable, Ideal, Grants, AnswerAt;
    var p := FixedPolicy(maxPerWindow, windowMs);
    GrantsStep(p, maxBuckets, ops, key, n, n);
    if CallsAt(ops, key, n) {
      CallAnswer(p, maxBuckets, ops, key, n);
      assert forall l: nat :: l < n && Opens(windowMs, ops, key, l) ==> CallsAt(ops, key, l);
      assert Opens(windowMs, ops, key, n);
    } else {
      IdealStep(p, ops, key, n);
    }
  }

  lemma NextWindow(maxPerWindow: int, windowMs: int, maxBuckets: Option<nat>, ops: seq<Op>, key: string, n: nat, lo: nat) returns (l: nat)
    requires windowMs > 0 && Usable(FixedPolicy(maxPerWindow, windowMs), maxBuckets, ops, key) && lo < n < |ops|
    requires Current(maxPerWindow, windowMs, maxBuckets, ops, key, n, lo)
    ensures l < n + 1 && Current(maxPerWindow, windowMs, maxBuckets, ops, key, n + 1, l)
  {
    hide Sound, NeverDisplaced, Ideal, Grants, AnswerAt;
    var p := FixedPolicy(maxPerWindow, windowMs);
    GrantsStep(p, maxBuckets, ops, key, lo, n);
    GrantsStep(p, maxBuckets, ops, key, n, n);
    l := lo;
    if CallsAt(ops, key, n) {
      CallAnswer(p, maxBuckets, ops, key, n);
      OpensNext(windowMs, ops, key, n, lo);
      if ops[n].now - ops[lo].now >= windowMs {
        l := n;
      }
    } else {
      IdealStep(p, ops, key, n);
    }
  }

  lemma OpensNext(windowMs: int, ops: seq<Op>, key: string, n: nat, lo: nat)
    requires windowMs > 0 && Monotone(ops) && lo < n && CallsAt(ops, key, n) && Opens(windowMs, ops, key, lo)
    requires forall l: nat :: lo < l < n ==> !Opens(windowMs, ops, key, l)
    ensures Opens(windowMs, ops, key, n) <==> ops[n].now - ops[lo].now >= windowMs
  {
  }

  lemma WindowOver(windowMs: int, ops: seq<Op>, key: string, l: nat, lo: nat, i: nat)
    requires Monotone(ops) && l < lo < i < |ops| && Opens(windowMs, ops, key, l) && Opens(windowMs, ops, key, lo)
    ensures ops[i].now - ops[l].now >= windowMs
  {
    assert ops[lo].now <= ops[i].now;
  }

  /** A call of a key that the cap never displaces is refused exactly if a window is open in which the quota has
      been granted already. */
  lemma FixedRefusesExactly(maxPerWindow: int, windowMs: int, maxBuckets: Option<nat>, ops: seq<Op>, key: string, i: nat)
    requires windowMs > 0 && Monotone(ops) && (maxBuckets.Some? ==> maxBuckets.value > 0)
    requires NeverDisplaced(FixedPolicy(maxPerWindow, windowMs), maxBuckets, ops, key) && CallsAt(ops, key, i)
    ensures var p := FixedPolicy(maxPerWindow, windowMs);
            !AnswerAt(p, maxBuckets, ops, i) <==>
            exists lo: nat :: lo < i && Opens(windowMs, ops, key, lo) && ops[i].now - ops[lo].now < windowMs
                              && Grants(p, maxBuckets, ops, key, lo, i) >= maxPerWindow
  {
    hide Sound, NeverDisplaced, Ideal, Grants, AnswerAt;
    var p := FixedPolicy(maxPerWindow, windowMs);
    FixedSound(maxPerWindow, windowMs);
    WindowsAlways(maxPerWindow, windowMs, maxBuckets, ops, key, i);
    CallAnswer(p, maxBuckets, ops, key, i);
    if !NoneOpened(maxPerWindow, windowMs, ops, key, i) {
      var lo: nat :| lo < i && Current(maxPerWindow, windowMs, maxBuckets, ops, key, i, lo);
      forall l: nat | l < i && Opens(windowMs, ops, key, l) && ops[i].now - ops[l].now < windowMs ensures l == lo {
        if l < lo {
          WindowOver(windowMs, ops, key, l, lo, i);
        }
      }
    }
  }

  // ----- token buckets -----

  /** The bucket was full when call lo came, and since then has been refilled and debited. */
  ghost predicate FullAt(capacity: int, refillWindowMs: int, maxBuckets: Option<nat>, ops: seq<Op>, key: string, n: nat, lo: nat)
    requires lo < n <= |ops|
  {
    var p := TokenPolicy(capacity, refillWindowMs);
    var b := Ideal(p, ops[..n], key);
    && CallsAt(ops, key, lo) && b.Some?
    && b.value.units + Grants(p, maxBuckets, ops, key, lo, n) * refillWindowMs
       == capacity * refillWindowMs + capacity * (b.value.lastRefillMs - ops[lo].now)
  }

  ghost predicate Balanced(capacity: int, refillWindowMs: int, maxBuckets: Option<nat>, ops: seq<Op>, key: string, n: nat)
    requires n <= |ops|
  {
    Ideal(TokenPolicy(capacity, refillWindowMs), ops[..n], key).None?
    || exists lo: nat :: lo < n && FullAt(capacity, refillWindowMs, maxBuckets, ops, key, n, lo)
  }

  /** One call, in whole units: what is in the bucket, and whether it is enough. */
  lemma TokenBalance(capacity: int, refillWindowMs: int, b: Tokens, now: int, g: nat, from: int)
    requires capacity > 0 && refillWindowMs > 0 && from <= b.lastRefillMs <= now
    requires b.units + g * refillWindowMs == capacity * refillWindowMs + capacity * (b.lastRefillMs - from)
    ensures var r := Refill(capacity, refillWindowMs, b, now); var a := TokenHit(capacity, refillWindowMs, b, now);
            && r.lastRefillMs == now && a.bucket.lastRefillMs == now
            && (r.units == capacity * refillWindowMs || r.units + g * refillWindowMs == capacity * refillWindowMs + capacity * (now - from))
            && r.units + g * refillWindowMs <= capacity * refillWindowMs + capacity * (now - from)
            && (a.allowed <==> r.units >= refillWindowMs)
            && a.bucket.units == r.units - if a.allowed then refillWindowMs else 0
  {
    assert capacity * (now - from) == capacity * (b.lastRefillMs - from) + (now - b.lastRefillMs) * capacity;
  }

  lemma {:induction false} BalancedAlways(capacity: int, refillWindowMs: int, maxBuckets: Option<nat>, ops: seq<Op>, key: string, n: nat)
    requires capacity > 0 && refillWindowMs > 0 && Usable(TokenPolicy(capacity, refillWindowMs), maxBuckets, ops, key) && n <= |ops|
    ensures Balanced(capacity, refillWindowMs, maxBuckets, ops, key, n)
  {
    hide Usable, Ideal, FullAt;
    if n == 0 {
      NoBucketYet(capacity, refillWindowMs, ops, key);
    } else {
      BalancedAlways(capacity, refillWindowMs, maxBuckets, ops, key, n - 1);
      if Ideal(TokenPolicy(capacity, refillWindowMs), ops[..n - 1], key).None? {
        FirstBucket(capacity, refillWindowMs, maxBuckets, ops, key, n - 1);
      } else {
        var lo: nat :| lo < n - 1 && FullAt(capacity, refillWindowMs, maxBuckets, ops, key, n - 1, lo);
        var l := NextBalance(capacity, refillWindowMs, maxBuckets, ops, key, n - 1, lo);
      }
    }
  }

  lemma NoBucketYet(capacity: int, refillWindowMs: int, ops: seq<Op>, key: string)
    ensures Ideal(TokenPolicy(capacity, refillWindowMs), ops[..0], key).None?
  {
  }

  lemma FirstBucket(capacity: int, refillWindowMs: int, maxBuckets: Option<nat>, ops: seq<Op>, key: string, n: nat)
    requires Usable(TokenPolicy(capacity, refillWindowMs), maxBuckets, ops, key) && n < |ops|
    requires Ideal(TokenPolicy(capacity, refillWindowMs), ops[..n], key).None?
    ensures Ideal(TokenPolicy(capacity, refillWindowMs), ops[..n + 1], key).None?
            || FullAt(capacity, refillWindowMs, maxBuckets, ops, key, n + 1, n)
  {
    hide Usable, Ideal, Grants, AnswerAt;
    var p := TokenPolicy(capacity, refillWindowMs);
    GrantsStep(p, maxBuckets, ops, key, n, n);
    if CallsAt(ops, key, n) {
      CallAnswer(p, maxBuckets, ops, key, n);
      assert (capacity - 1) * refillWindowMs == capacity * refillWindowMs - refillWindowMs;
    } else {
      IdealStep(p, ops, key, n);
    }
  }

  lemma NextBalance(capacity: int, refillWindowMs: int, maxBuckets: Option<nat>, ops: seq<Op>, key: string, n: nat, lo: nat) returns (l: nat)
    requires capacity > 0 && refillWindowMs > 0 && Usable(TokenPolicy(capacity, refillWindowMs), maxBuckets, ops, key) && lo < n < |ops|
    requires FullAt(capacity, refillWindowMs, maxBuckets, ops, key, n, lo)
    ensures l < n + 1 && FullAt(capacity, refillWindowMs, maxBuckets, ops, key, n + 1, l)
  {
    hide Sound, NeverDisplaced, Ideal, Grants, AnswerAt, TokenHit, Refill;
    var p := TokenPolicy(capacity, refillWindowMs);
    GrantsStep(p, maxBuckets, ops, key, lo, n);
    GrantsStep(p, maxBuckets, ops, key, n, n);
    l := lo;
    if CallsAt(ops, key, n) {
      var b, now := Ideal(p, ops[..n], key).value, ops[n].now;
      var g := Grants(p, maxBuckets, ops, key, lo, n);
      CallAnswer(p, maxBuckets, ops, key, n);
      TokenIdealBounds(capacity, refillWindowMs, ops, key, n);
      RefilledSince(capacity, refillWindowMs, ops, key, lo, n);
      TokenBalance(capacity, refillWindowMs, b, now, g, ops[lo].now);
      assert (g + 1) * refillWindowMs == g * refillWindowMs + refillWindowMs;
      if Refill(capacity, refillWindowMs, b, now).units == capacity * refillWindowMs {
        l := n;
      }
    } else {
      IdealStep(p, ops, key, n);
    }
  }

  /** A call of the key refills its bucket. */
  lemma {:induction false} RefilledSince(capacity: int, refillWindowMs: int, ops: seq<Op>, key: string, lo: nat, n: nat)
    requires capacity > 0 && refillWindowMs > 0 && Monotone(ops) && lo < n <= |ops| && CallsAt(ops, key, lo)
    ensures var b := Ideal(TokenPolicy(capacity, refillWindowMs), ops[..n], key); b.Some? && b.value.lastRefillMs >= ops[lo].now
    decreases n
  {
    hide Ideal;
    IdealStep(TokenPolicy(capacity, refillWindowMs), ops, key, n - 1);
    if n > lo + 1 {
      RefilledSince(capacity, refillWindowMs, ops, key, lo, n - 1);
    }
  }

  /** A call of a key that the cap never displaces is refused exactly if, since some call of the key, one grant more
      than there were is more than a full bucket and the refill since then give. */
  lemma TokenRefusesExactly(capacity: int, refillWindowMs: int, maxBuckets: Option<nat>, ops: seq<Op>, key: string, i: nat)
    requires capacity > 0 && refillWindowMs > 0 && Monotone(ops) && (maxBuckets.Some? ==> maxBuckets.value > 0)
    requires NeverDisplaced(TokenPolicy(capacity, refillWindowMs), maxBuckets, ops, key) && CallsAt(ops, key, i)
    ensures var p := TokenPolicy(capacity, refillWindowMs);
            !AnswerAt(p, maxBuckets, ops, i) <==>
            exists lo: nat :: lo < i && CallsAt(ops, key, lo)
                              && (Grants(p, maxBuckets, ops, key, lo, i) + 1) * refillWindowMs
                                 > capacity * refillWindowMs + capacity * (ops[i].now - ops[lo].now)
  {
    hide Sound, NeverDisplaced, Ideal, Grants, AnswerAt, TokenPolicy, FullAt;
    var p := TokenPolicy(capacity, refillWindowMs);
    TokenSound(capacity, refillWindowMs);
    if AnswerAt(p, maxBuckets, ops, i) {
      forall lo: nat | lo < i && CallsAt(ops, key, lo)
        ensures (Grants(p, maxBuckets, ops, key, lo, i) + 1) * refillWindowMs <= capacity * refillWindowMs + capacity * (ops[i].now - ops[lo].now)
      {
        GrantsStep(p, maxBuckets, ops, key, lo, i);
        TokenBucketBound(capacity, refillWindowMs, maxBuckets, ops, key, lo, i + 1);
      }
    } else {
      BalancedAlways(capacity, refillWindowMs, maxBuckets, ops, key, i);
      CallAnswer(p, maxBuckets, ops, key, i);
      var lo: nat :| lo < i && FullAt(capacity, refillWindowMs, maxBuckets, ops, key, i, lo);
      RefusedIsShort(capacity, refillWindowMs, maxBuckets, ops, key, lo, i);
    }
  }

  lemma RefusedIsShort(capacity: int, refillWindowMs: int, maxBuckets: Option<nat>, ops: seq<Op>, key: string, lo: nat, i: nat)
    requires capacity > 0 && refillWindowMs > 0 && Usable(TokenPolicy(capacity, refillWindowMs), maxBuckets, ops, key)
    requires lo < i && CallsAt(ops, key, i) && FullAt(capacity, refillWindowMs, maxBuckets, ops, key, i, lo)
    requires !AnswerAt(TokenPolicy(capacity, refillWindowMs), maxBuckets, ops, i)
    ensures CallsAt(ops, key, lo)
    ensures (Grants(TokenPolicy(capacity, refillWindowMs), maxBuckets, ops, key, lo, i) + 1) * refillWindowMs
            > capacity * refillWindowMs + capacity * (ops[i].now - ops[lo].now)
  {
    hide Sound, NeverDisplaced, Ideal, Grants, AnswerAt, TokenHit, Refill;
    var p := TokenPolicy(capacity, refillWindowMs);
    var b, now := Ideal(p, ops[..i], key).value, ops[i].now;
    var g := Grants(p, maxBuckets, ops, key, lo, i);
    CallAnswer(p, maxBuckets, ops, key, i);
    TokenIdealBounds(capacity, refillWindowMs, ops, key, i);
    RefilledSince(capacity, refillWindowMs, ops, key, lo, i);
    TokenBalance(capacity, refillWindowMs, b, now, g, ops[lo].now);
    assert (g + 1) * refillWindowMs == g * refillWindowMs + refillWindowMs;
    MulMono(1, capacity, refillWindowMs);
  }

  // ----- what is remembered -----

  /** Sweeping forgets exactly the buckets that are at least two windows old. */
  lemma SweptExactly(m: OMap<string, Window>, maxPerWindow: int, windowMs: int, t: OMap<string, Tokens>, capacity: int, refillWindowMs: int, now: int)
    ensures forall k :: k in Swept(FixedPolicy(maxPerWindow, windowMs), m, now).data <==> k in m.data && now < m.data[k].windowStartMs + 2 * windowMs
    ensures forall k :: k in Swept(TokenPolicy(capacity, refillWindowMs), t, now).data <==> k in t.data && now < t.data[k].lastRefillMs + 2 * refillWindowMs
  {
  }

  /** In every run there are at most maxBuckets buckets. */
  lemma {:induction false} TableWithinCap<B(!new)>(p: Policy<B>, maxBuckets: nat, ops: seq<Op>)
    ensures |Table(p, Some(maxBuckets), ops).data| <= maxBuckets
  {
    hide Next;
    if ops != [] {
      TableWithinCap(p, maxBuckets, ops[..|ops| - 1]);
      NextWithinCap(p, maxBuckets, Table(p, Some(maxBuckets), ops[..|ops| - 1]), ops[|ops| - 1]);
    }
  }

  lemma NextWithinCap<B(!new)>(p: Policy<B>, maxBuckets: nat, m: OMap<string, B>, op: Op)
    requires |m.data| <= maxBuckets
    ensures |Next(p, Some(maxBuckets), m, op).data| <= maxBuckets
  {
    hide EvictTo, Keep, Touch;
    EvictedSize(Before(p, m, op), maxBuckets);
    if op.Call? && op.key in m.data {
      SameKeysSameSize(m.data, Called(p, m, op.key, op.now).data);
    }
  }

  lemma SameKeysSameSize<B>(m: map<string, B>, n: map<string, B>)
    requires m.Keys == n.Keys
    ensures |m| == |n|
  {
    assert |m.Keys| == |m| && |n.Keys| == |n|;
  }

  lemma EvictedSize<B(!new)>(m: OMap<string, B>, cap: nat)
    ensures |EvictTo(m, cap).data| <= cap
  {
    hide EvictTo;
    var e := EvictTo(m, cap);
    EvictOrder(m, cap);
    DistinctCount(e.order);
    assert |e.data.Keys| == |e.data|;
  }
}
