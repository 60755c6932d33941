/** The in-memory fixed-window rate limiter, with the sweep that bounds its table. Times are milliseconds. */
module RateLimiter {
  type Key = string

  datatype Entry = Entry(count: nat, resetAt: int)

  datatype Decision = Decision(allowed: bool, retryAfterSec: int)

  const ADMIT := Decision(true, 0)

  /** Math.ceil(ms / 1000) for a positive number of milliseconds. */
  function CeilSec(ms: int): int requires ms >= 0 { (ms + 999) / 1000 }

  function RetryAfter(e: Entry, now: int): int requires now <= e.resetAt {
    if CeilSec(e.resetAt - now) >= 1 then CeilSec(e.resetAt - now) else 1
  }

  /** The policy on an unbounded table that is never swept. */
  function Check(hits: map<Key, Entry>, limit: nat, windowMs: int, key: Key, now: int): (map<Key, Entry>, Decision) {
    if key !in hits || now >= hits[key].resetAt then (hits[key := Entry(1, now + windowMs)], ADMIT)
    else
      var e := Entry(hits[key].count + 1, hits[key].resetAt);
      (hits[key := e], if e.count > limit then Decision(false, RetryAfter(e, now)) else ADMIT)
  }

  function Live(hits: map<Key, Entry>, now: int): map<Key, Entry> {
    map k | k in hits && now < hits[k].resetAt :: hits[k]
  }

  class RateLimiter {
    var hits: map<Key, Entry>
    const limit: nat
    const windowMs: int
    const maxKeys: nat
    const enabled: bool

    constructor (limit: nat, windowMs: int, maxKeys: nat, enabled: bool)
      ensures hits == map[] && this.limit == limit && this.windowMs == windowMs
      ensures this.maxKeys == maxKeys && this.enabled == enabled
    {
      hits := map[];
      this.limit, this.windowMs, this.maxKeys, this.enabled := limit, windowMs, maxKeys, enabled;
    }

    method CheckKey(key: Key, now: int) returns (d: Decision)
      modifies this
      ensures if enabled then
                (hits, d) == Check(if |old(hits)| > maxKeys then Live(old(hits), now) else old(hits), limit, windowMs, key, now)
              else hits == old(hits) && d == ADMIT
    {
      if !enabled {
        return ADMIT;
      }
      if |hits| > maxKeys {
        Sweep(now);
      }
      if key !in hits || now >= hits[key].resetAt {
        hits := hits[key := Entry(1, now + windowMs)];
        return ADMIT;
      }
      var e := Entry(hits[key].count + 1, hits[key].resetAt);
      hits := hits[key := e];
      if e.count > limit {
        return Decision(false, RetryAfter(e, now));
      }
      d := ADMIT;
    }

    method Sweep(now: int)
      modifies this
      ensures hits == Live(old(hits), now)
    {
      var todo := hits.Keys;
      while todo != {}
        invariant todo <= old(hits).Keys
        invariant hits.Keys <= old(hits).Keys
        invariant forall k :: k in hits ==> hits[k] == old(hits)[k]
        invariant forall k :: k in old(hits) && (k in todo || now < old(hits)[k].resetAt) ==> k in hits
        invariant forall k :: k in hits && k !in todo ==> now < hits[k].resetAt
        decreases todo
      {
        var k :| k in todo;
        if now >= hits[k].resetAt {
          hits := hits - {k};
        }
        todo := todo - {k};
      }
    }
  }

  // ------------------------------------------------- the sweep is invisible

  /** A sweep leaves a key alone, entry and all, until its window is over, and then removes it. */
  lemma LiveIff(hits: map<Key, Entry>, now: int, key: Key)
    ensures key in Live(hits, now) <==> key in hits && hits[key].resetAt > now
    ensures key in Live(hits, now) ==> Live(hits, now)[key] == hits[key]
  {
  }

  datatype Attempt = Attempt(key: Key, now: int)

  /** A clock that does not go back. */
  predicate Ordered(xs: seq<Attempt>) { forall i, j :: 0 <= i < j < |xs| ==> xs[i].now <= xs[j].now }

  /** One attempt on the swept table. */
  function CheckSwept(hits: map<Key, Entry>, limit: nat, windowMs: int, maxKeys: nat, x: Attempt)
    : (map<Key, Entry>, Decision)
  {
    Check(if |hits| > maxKeys then Live(hits, x.now) else hits, limit, windowMs, x.key, x.now)
  }

  function RunSwept(xs: seq<Attempt>, limit: nat, windowMs: int, maxKeys: nat): (r: (map<Key, Entry>, seq<Decision>))
    ensures |r.1| == |xs|
  {
    if xs == [] then (map[], [])
    else
      var n := |xs| - 1;
      var (hits, ds) := RunSwept(xs[..n], limit, windowMs, maxKeys);
      var (hits1, d) := CheckSwept(hits, limit, windowMs, maxKeys, xs[n]);
      (hits1, ds + [d])
  }

  function Run(xs: seq<Attempt>, limit: nat, windowMs: int): (r: (map<Key, Entry>, seq<Decision>))
    ensures |r.1| == |xs|
  {
    if xs == [] then (map[], [])
    else
      var n := |xs| - 1;
      var (hits, ds) := Run(xs[..n], limit, windowMs);
      var (hits1, d) := Check(hits, limit, windowMs, xs[n].key, xs[n].now);
      (hits1, ds + [d])
  }

  /** The swept table lacks nothing of the unswept one but entries whose window is over. */
  ghost predicate Agree(swept: map<Key, Entry>, full: map<Key, Entry>, now: int) {
    && swept.Keys <= full.Keys
    && (forall k :: k in swept ==> swept[k] == full[k])
    && forall k :: k in full && k !in swept ==> full[k].resetAt <= now
  }

  lemma AgreeStep(
      swept: map<Key, Entry>, full: map<Key, Entry>, limit: nat, windowMs: int, maxKeys: nat, x: Attempt, before: int)
    requires Agree(swept, full, before) && before <= x.now
    ensures var (swept1, d) := CheckSwept(swept, limit, windowMs, maxKeys, x);
            var (full1, e) := Check(full, limit, windowMs, x.key, x.now);
            d == e && Agree(swept1, full1, x.now)
  {
    assert Agree(Live(swept, x.now), full, x.now);
  }

  /** With a clock that does not go back, sweeping changes no decision, whatever the table's limit. */
  lemma {:induction false} SweepIsInvisible(xs: seq<Attempt>, limit: nat, windowMs: int, maxKeys: nat)
    requires Ordered(xs)
    ensures RunSwept(xs, limit, windowMs, maxKeys).1 == Run(xs, limit, windowMs).1
    ensures xs != [] ==>
      Agree(RunSwept(xs, limit, windowMs, maxKeys).0, Run(xs, limit, windowMs).0, xs[|xs| - 1].now)
  {
    if xs != [] {
      var n := |xs| - 1;
      SweepIsInvisible(xs[..n], limit, windowMs, maxKeys);
      var swept, full := RunSwept(xs[..n], limit, windowMs, maxKeys).0, Run(xs[..n], limit, windowMs).0;
      AgreeStep(swept, full, limit, windowMs, maxKeys, xs[n], if n > 0 then xs[n - 1].now else xs[n].now);
    }
  }

  // ------------------------------------------------------- how much gets in

  /** How many of the attempts `i..j` on a key were admitted. */
  function Admitted(xs: seq<Attempt>, limit: nat, windowMs: int, key: Key, i: nat, j: nat): nat
    requires i <= j <= |xs|
  {
    if i == j then 0
    else
      var got := Admitted(xs, limit, windowMs, key, i, j - 1);
      if xs[j - 1].key == key && Run(xs, limit, windowMs).1[j - 1].allowed then got + 1 else got
  }

  lemma {:induction false} RunPrefix(xs: seq<Attempt>, limit: nat, windowMs: int, j: nat)
    requires j <= |xs|
    ensures Run(xs[..j], limit, windowMs).1 == Run(xs, limit, windowMs).1[..j]
  {
    var n := |xs| - 1;
    if j <= n {
      RunPrefix(xs[..n], limit, windowMs, j);
      assert xs[..n][..j] == xs[..j];
    } else {
      assert xs[..j] == xs;
    }
  }

  /** The table before attempt `j`. */
  function TableAt(xs: seq<Attempt>, limit: nat, windowMs: int, j: nat): map<Key, Entry>
    requires j <= |xs|
  {
    Run(xs[..j], limit, windowMs).0
  }

  lemma StepAt(xs: seq<Attempt>, limit: nat, windowMs: int, j: nat)
    requires j < |xs|
    ensures (TableAt(xs, limit, windowMs, j + 1), Run(xs, limit, windowMs).1[j])
            == Check(TableAt(xs, limit, windowMs, j), limit, windowMs, xs[j].key, xs[j].now)
  {
    assert xs[..j + 1][..j] == xs[..j];
    RunPrefix(xs, limit, windowMs, j + 1);
  }

  lemma {:induction false} CountIsPositive(xs: seq<Attempt>, limit: nat, windowMs: int, key: Key, j: nat)
    requires j <= |xs| && key in TableAt(xs, limit, windowMs, j)
    ensures TableAt(xs, limit, windowMs, j)[key].count >= 1
  {
    if j > 0 {
      StepAt(xs, limit, windowMs, j - 1);
      if key in TableAt(xs, limit, windowMs, j - 1) {
        CountIsPositive(xs, limit, windowMs, key, j - 1);
      }
    }
  }

  /** How many a window has admitted. */
  function Capped(e: Entry, limit: nat): nat { if e.count <= limit then e.count else limit }

  /**
   * Within less than one window's length of attempt `i`, either the key's window has not been renewed and what was
   * admitted is bounded by what it had left, or it has been renewed once and lasts beyond that length.
   */
  lemma {:induction false} InsideWindow(xs: seq<Attempt>, limit: nat, windowMs: int, key: Key, i: nat, j: nat)
    requires Ordered(xs) && limit >= 1 && i <= j <= |xs|
    requires j > i ==> xs[j - 1].now - xs[i].now < windowMs
    ensures var before, after := TableAt(xs, limit, windowMs, i), TableAt(xs, limit, windowMs, j);
            var got := Admitted(xs, limit, windowMs, key, i, j);
            || (key !in after && key !in before && got == 0)
            || (key in after && key in before && after[key].resetAt == before[key].resetAt
                && got + before[key].count <= after[key].count
                && (got > 0 ==> got + before[key].count <= limit && after[key].resetAt > xs[i].now))
            || (key in after && i < |xs| && after[key].resetAt >= xs[i].now + windowMs && after[key].count >= 1
                && got < limit + Capped(after[key], limit)
                && (after[key].resetAt == xs[i].now + windowMs ==> got <= Capped(after[key], limit)))
    decreases j
  {
    if key in TableAt(xs, limit, windowMs, i) {
      CountIsPositive(xs, limit, windowMs, key, i);
    }
    if j > i {
      if j - 1 > i {
        assert xs[j - 2].now <= xs[j - 1].now;
      }
      InsideWindow(xs, limit, windowMs, key, i, j - 1);
      StepAt(xs, limit, windowMs, j - 1);
      assert i < j - 1 ==> xs[i].now <= xs[j - 1].now;
    }
  }

  /**
   * In any interval shorter than one window fewer than twice the limit is admitted per key: the attempt that opened
   * the earlier of the two windows it can touch lies before it.
   */
  lemma BelowTwiceTheLimit(xs: seq<Attempt>, limit: nat, windowMs: int, key: Key, i: nat, j: nat)
    requires Ordered(xs) && limit >= 1 && i < j <= |xs| && xs[j - 1].now - xs[i].now < windowMs
    ensures Admitted(xs, limit, windowMs, key, i, j) < 2 * limit
  {
    InsideWindow(xs, limit, windowMs, key, i, j);
  }

  /**
   * Where a key stands at the instant `end` at which the window length is over, with `got` admitted: not renewed, or
   * renewed once, or a second time at this very instant.
   */
  predicate AtEnd(hits: map<Key, Entry>, limit: nat, windowMs: int, key: Key, end: int, got: nat) {
    || (key !in hits && got == 0)
    || (key in hits && hits[key].resetAt <= end && got <= limit)
    || (key in hits && hits[key].resetAt > end && got < limit + Capped(hits[key], limit))
    || (key in hits && hits[key].resetAt == end + windowMs && hits[key].count >= 1
        && got <= limit + Capped(hits[key], limit))
  }

  lemma EndStep(hits: map<Key, Entry>, limit: nat, windowMs: int, key: Key, x: Attempt, got: nat)
    requires limit >= 1 && windowMs >= 1 && AtEnd(hits, limit, windowMs, key, x.now, got)
    ensures var (hits1, d) := Check(hits, limit, windowMs, x.key, x.now);
            AtEnd(hits1, limit, windowMs, key, x.now, if x.key == key && d.allowed then got + 1 else got)
  {
  }

  lemma EndsInside(xs: seq<Attempt>, limit: nat, windowMs: int, key: Key, i: nat, j: nat)
    requires Ordered(xs) && limit >= 1 && i < j <= |xs| && xs[j - 1].now - xs[i].now < windowMs
    ensures AtEnd(TableAt(xs, limit, windowMs, j), limit, windowMs, key, xs[i].now + windowMs,
                  Admitted(xs, limit, windowMs, key, i, j))
  {
    InsideWindow(xs, limit, windowMs, key, i, j);
    if key in TableAt(xs, limit, windowMs, i) {
      CountIsPositive(xs, limit, windowMs, key, i);
    }
  }

  lemma {:induction false} WithinWindow(xs: seq<Attempt>, limit: nat, windowMs: int, key: Key, i: nat, j: nat)
    requires Ordered(xs) && limit >= 1 && windowMs >= 1 && i < j <= |xs| && xs[j - 1].now - xs[i].now == windowMs
    ensures AtEnd(TableAt(xs, limit, windowMs, j), limit, windowMs, key, xs[j - 1].now,
                  Admitted(xs, limit, windowMs, key, i, j))
    decreases j
  {
    if xs[j - 2].now == xs[j - 1].now {
      WithinWindow(xs, limit, windowMs, key, i, j - 1);
    } else {
      EndsInside(xs, limit, windowMs, key, i, j - 1);
    }
    StepAt(xs, limit, windowMs, j - 1);
    EndStep(TableAt(xs, limit, windowMs, j - 1), limit, windowMs, key, xs[j - 1],
            Admitted(xs, limit, windowMs, key, i, j - 1));
  }

  /** An interval of exactly one window's length admits at most twice the limit per key. */
  lemma AtMostTwiceTheLimit(xs: seq<Attempt>, limit: nat, windowMs: int, key: Key, i: nat, j: nat)
    requires Ordered(xs) && limit >= 1 && windowMs >= 1 && i < j <= |xs| && xs[j - 1].now - xs[i].now <= windowMs
    ensures Admitted(xs, limit, windowMs, key, i, j) <= 2 * limit
  {
    if xs[j - 1].now - xs[i].now < windowMs {
      BelowTwiceTheLimit(xs, limit, windowMs, key, i, j);
    } else {
      WithinWindow(xs, limit, windowMs, key, i, j);
    }
  }

  /** The bound is reached: a burst at the end of one window and another at the start of the next. */
  lemma BoundIsReached()
    ensures var xs := [Attempt("k", 0), Attempt("k", 59), Attempt("k", 60), Attempt("k", 61)];
            Ordered(xs) && xs[3].now - xs[1].now < 60 && Admitted(xs, 2, 60, "k", 1, 4) == 2 * 2 - 1
  {
    var xs := [Attempt("k", 0), Attempt("k", 59), Attempt("k", 60), Attempt("k", 61)];
    var hits: map<Key, Entry> := TableAt(xs, 2, 60, 0);
    assert hits == map[];
    StepAt(xs, 2, 60, 0);
    StepAt(xs, 2, 60, 1);
    StepAt(xs, 2, 60, 2);
    StepAt(xs, 2, 60, 3);
    assert Admitted(xs, 2, 60, "k", 1, 1) == 0;
    assert Admitted(xs, 2, 60, "k", 1, 2) == 1;
    assert Admitted(xs, 2, 60, "k", 1, 3) == 2;
  }

  /** An entry tells when its window was opened, and what was admitted since: its count, up to the limit. */
  lemma {:induction false} WindowStart(xs: seq<Attempt>, limit: nat, windowMs: int, key: Key, j: nat) returns (i: nat)
    requires limit >= 1 && j <= |xs| && key in TableAt(xs, limit, windowMs, j)
    ensures i < j && xs[i].key == key
    ensures var e := TableAt(xs, limit, windowMs, j)[key];
            && e.resetAt == xs[i].now + windowMs && e.count >= 1
            && Admitted(xs, limit, windowMs, key, i, j) == if e.count <= limit then e.count else limit
  {
    StepAt(xs, limit, windowMs, j - 1);
    var before := TableAt(xs, limit, windowMs, j - 1);
    if xs[j - 1].key == key && (key !in before || xs[j - 1].now >= before[key].resetAt) {
      i := j - 1;
      assert Admitted(xs, limit, windowMs, key, i, i) == 0;
    } else {
      i := WindowStart(xs, limit, windowMs, key, j - 1);
    }
  }

  /** Nobody is denied who has not been admitted `limit` times less than one window's length before. */
  lemma DeniedOnlyAtTheLimit(xs: seq<Attempt>, limit: nat, windowMs: int, j: nat) returns (i: nat)
    requires limit >= 1 && j < |xs| && !Run(xs, limit, windowMs).1[j].allowed
    ensures i < j && xs[i].key == xs[j].key && xs[j].now - xs[i].now < windowMs
    ensures Admitted(xs, limit, windowMs, xs[j].key, i, j) == limit
  {
    StepAt(xs, limit, windowMs, j);
    i := WindowStart(xs, limit, windowMs, xs[j].key, j);
  }

  /** That bound is reached as well: a burst as one window opens and another at the instant it ends. */
  lemma TwiceIsReached()
    ensures var xs := [Attempt("k", 0), Attempt("k", 0), Attempt("k", 60), Attempt("k", 60)];
            Ordered(xs) && xs[3].now - xs[0].now == 60 && Admitted(xs, 2, 60, "k", 0, 4) == 2 * 2
  {
    var xs := [Attempt("k", 0), Attempt("k", 0), Attempt("k", 60), Attempt("k", 60)];
    var hits: map<Key, Entry> := TableAt(xs, 2, 60, 0);
    assert hits == map[];
    StepAt(xs, 2, 60, 0);
    StepAt(xs, 2, 60, 1);
    StepAt(xs, 2, 60, 2);
    StepAt(xs, 2, 60, 3);
    assert Admitted(xs, 2, 60, "k", 0, 0) == 0;
    assert Admitted(xs, 2, 60, "k", 0, 1) == 1;
    assert Admitted(xs, 2, 60, "k", 0, 2) == 2;
    assert Admitted(xs, 2, 60, "k", 0, 3) == 3;
  }

  /** A denied key stays denied with the same reset time until it is due. */
  lemma {:induction false} EntryPersists(xs: seq<Attempt>, limit: nat, windowMs: int, key: Key, i: nat, j: nat)
    requires Ordered(xs) && i <= j < |xs| && key in TableAt(xs, limit, windowMs, i)
    requires forall k :: i <= k < j ==> xs[k].key != key
    ensures key in TableAt(xs, limit, windowMs, j)
    ensures TableAt(xs, limit, windowMs, j)[key] == TableAt(xs, limit, windowMs, i)[key]
    decreases j
  {
    if i < j {
      EntryPersists(xs, limit, windowMs, key, i, j - 1);
      StepAt(xs, limit, windowMs, j - 1);
    }
  }

  /** A caller denied with `retryAfterSec` r whose next attempt comes at least r seconds later is admitted. */
  lemma RetryIsHonoured(xs: seq<Attempt>, limit: nat, windowMs: int, i: nat, j: nat)
    requires Ordered(xs) && i < j < |xs| && xs[j].key == xs[i].key
    requires forall k :: i < k < j ==> xs[k].key != xs[i].key
    requires var d := Run(xs, limit, windowMs).1[i]; !d.allowed && xs[j].now >= xs[i].now + 1000 * d.retryAfterSec
    ensures Run(xs, limit, windowMs).1[j].allowed
  {
    StepAt(xs, limit, windowMs, i);
    EntryPersists(xs, limit, windowMs, xs[i].key, i + 1, j);
    StepAt(xs, limit, windowMs, j);
  }

  /** And no second too late: a caller that comes back a second or more before it was told is denied again. */
  lemma RetryIsExact(xs: seq<Attempt>, limit: nat, windowMs: int, i: nat, j: nat)
    requires Ordered(xs) && i < j < |xs| && xs[j].key == xs[i].key
    requires forall k :: i < k < j ==> xs[k].key != xs[i].key
    requires var d := Run(xs, limit, windowMs).1[i]; !d.allowed && xs[j].now <= xs[i].now + 1000 * (d.retryAfterSec - 1)
    ensures Run(xs, limit, windowMs).1[i].retryAfterSec >= 1 && !Run(xs, limit, windowMs).1[j].allowed
  {
    StepAt(xs, limit, windowMs, i);
    EntryPersists(xs, limit, windowMs, xs[i].key, i + 1, j);
    StepAt(xs, limit, windowMs, j);
  }
}
