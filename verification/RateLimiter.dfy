/**
 The sliding-window rate limiter: deques in process memory
 (src/research_platform/mcp/servers/web_boundary.py) and sorted sets changed by atomic
 scripts (src/research_platform/persistence/redis_state.py). Times are microseconds.
 */
module RateLimiter {
  import opened Basics

  datatype RawLimits = Limits(limit: nat, window: int)

  type Limits = l: RawLimits | l.limit >= 1 witness Limits(1, 60_000_000)

  /** A request and the readings of the clock it makes: `acquire` prunes at one and stamps another. */
  datatype Request = Acquire(key: string, read: int, stamped: int) | Remaining(key: string, read: int)

  type Deques = map<string, seq<int>>

  function HitsOf(hits: Deques, key: string): seq<int> {
    if key in hits then hits[key] else []
  }

  /** The deque once every hit at or before the cutoff has been popped from its front. */
  function Popped(hits: seq<int>, cutoff: int): seq<int> {
    if hits != [] && hits[0] <= cutoff then Popped(hits[1..], cutoff) else hits
  }

  /** A key's new deque, and the slots left or `None` for a refusal. */
  function ServeKey(l: Limits, hits: seq<int>, q: Request): (seq<int>, Option<int>) {
    var kept := Popped(hits, q.read - l.window);
    match q
    case Remaining(_, _) => (kept, Some(if l.limit > |kept| then l.limit - |kept| else 0))
    case Acquire(_, _, stamped) =>
      if |kept| >= l.limit then (kept, None) else (kept + [stamped], Some(l.limit - |kept| - 1))
  }

  function Serve(l: Limits, hits: Deques, q: Request): (Deques, Option<int>) {
    var (deque, answer) := ServeKey(l, HitsOf(hits, q.key), q);
    (hits[q.key := deque], answer)
  }

  class SlidingWindowRateLimiter {
    const limits: Limits
    var hits: Deques

    constructor (limits: Limits)
      ensures this.limits == limits && hits == map[]
    {
      this.limits := limits;
      hits := map[];
    }

    method Prune(key: string, now: int) returns (kept: seq<int>)
      modifies this
      ensures kept == Popped(HitsOf(old(hits), key), now - limits.window)
      ensures hits == old(hits)[key := kept]
    {
      kept := HitsOf(hits, key);
      var cutoff := now - limits.window;
      while kept != [] && kept[0] <= cutoff
        invariant Popped(kept, cutoff) == Popped(HitsOf(old(hits), key), cutoff)
        decreases |kept|
      {
        kept := kept[1..];
      }
      hits := hits[key := kept];
    }

    method SlotsLeft(key: string, now: int) returns (slots: int)
      modifies this
      ensures (hits, Some(slots)) == Serve(limits, old(hits), Remaining(key, now))
    {
      var kept := Prune(key, now);
      slots := if limits.limit > |kept| then limits.limit - |kept| else 0;
    }

    method Claim(key: string, read: int, stamped: int) returns (slots: Option<int>)
      modifies this
      ensures (hits, slots) == Serve(limits, old(hits), Acquire(key, read, stamped))
    {
      var kept := Prune(key, read);
      if |kept| >= limits.limit {
        return None;
      }
      hits := hits[key := kept + [stamped]];
      assert hits == old(hits)[key := kept + [stamped]];
      slots := Some(limits.limit - |kept| - 1);
    }
  }

  // ---------------------------------------------------------------- histories

  function After(l: Limits, history: seq<Request>): Deques {
    if history == [] then map[]
    else Serve(l, After(l, history[..|history| - 1]), history[|history| - 1]).0
  }

  /** The clock never goes back: no reading of the history is later than `now`. */
  ghost predicate Monotone(history: seq<Request>, now: int) {
    history == [] ||
    (var q := history[|history| - 1];
     && (q.Acquire? ==> q.read <= q.stamped <= now) && q.read <= now
     && Monotone(history[..|history| - 1], q.read))
  }

  /** When requests for the key were granted, oldest first. */
  function Grants(l: Limits, history: seq<Request>, key: string): seq<int> {
    if history == [] then []
    else
      var n := |history| - 1;
      var earlier := Grants(l, history[..n], key);
      if history[n].key == key && history[n].Acquire? && Serve(l, After(l, history[..n]), history[n]).1.Some?
      then earlier + [history[n].stamped] else earlier
  }

  /** What the last request of a history did to a key's deque and to its grants. */
  lemma LastRequest(l: Limits, history: seq<Request>, key: string)
    requires history != []
    ensures var n := |history| - 1;
            var q := history[n];
            var before := HitsOf(After(l, history[..n]), key);
            var kept := Popped(before, q.read - l.window);
            var grants := Grants(l, history[..n], key);
            if q.key == key && q.Acquire? && |kept| < l.limit
            then && HitsOf(After(l, history), key) == kept + [q.stamped]
                 && Grants(l, history, key) == grants + [q.stamped]
            else && HitsOf(After(l, history), key) == (if q.key == key then kept else before)
                 && Grants(l, history, key) == grants
  {
  }

  /** The grants of the window a request made at `now` is judged against. */
  function Recent(l: Limits, grants: seq<int>, now: int): seq<int> {
    Later(grants, now - l.window)
  }

  /** The elements after the cutoff: what deleting the range up to it leaves. */
  function Later(s: seq<int>, cutoff: int): (r: seq<int>)
    ensures |r| <= |s|
  {
    if s == [] then []
    else (if s[0] > cutoff then [s[0]] else []) + Later(s[1..], cutoff)
  }

  lemma {:induction false} LaterMembers(s: seq<int>, cutoff: int)
    ensures forall g :: g in Later(s, cutoff) <==> g in s && g > cutoff
  {
    if s != [] {
      assert s == [s[0]] + s[1..];
      LaterMembers(s[1..], cutoff);
    }
  }

  lemma {:induction false} LaterConcat(s: seq<int>, t: seq<int>, cutoff: int)
    ensures Later(s + t, cutoff) == Later(s, cutoff) + Later(t, cutoff)
  {
    if s == [] {
      assert s + t == t;
    } else {
      assert (s + t)[1..] == s[1..] + t;
      LaterConcat(s[1..], t, cutoff);
    }
  }

  /** The elements of the half-open interval from `lo` to `hi`. */
  function Inside(s: seq<int>, lo: int, hi: int): (r: seq<int>)
    ensures |r| <= |s| && forall x :: x in r <==> x in s && lo <= x && x < hi
  {
    if s == [] then []
    else
      assert s == [s[0]] + s[1..];
      (if lo <= s[0] < hi then [s[0]] else []) + Inside(s[1..], lo, hi)
  }

  lemma {:induction false} InsideConcat(s: seq<int>, t: seq<int>, lo: int, hi: int)
    ensures Inside(s + t, lo, hi) == Inside(s, lo, hi) + Inside(t, lo, hi)
  {
    if s == [] {
      assert s + t == t;
    } else {
      assert (s + t)[1..] == s[1..] + t;
      InsideConcat(s[1..], t, lo, hi);
    }
  }

  ghost predicate Ascending(s: seq<int>) {
    forall i, j :: 0 <= i < j < |s| ==> s[i] <= s[j]
  }

  // ---------------------------------------------------------------- popping is filtering

  lemma {:induction false} PoppedIsLater(s: seq<int>, cutoff: int)
    requires Ascending(s)
    ensures Popped(s, cutoff) == Later(s, cutoff)
  {
    if s != [] {
      assert Ascending(s[1..]);
      PoppedIsLater(s[1..], cutoff);
      if s[0] > cutoff {
        AllKept(s, cutoff);
      }
    }
  }

  lemma {:induction false} AllKept(s: seq<int>, cutoff: int)
    requires forall g :: g in s ==> g > cutoff
    ensures Later(s, cutoff) == s
  {
    if s != [] {
      assert s == [s[0]] + s[1..] && s[0] in s && forall g :: g in s[1..] ==> g in s;
      AllKept(s[1..], cutoff);
    }
  }

  lemma {:induction false} LaterTwice(s: seq<int>, earlier: int, cutoff: int)
    requires earlier <= cutoff
    ensures Later(Later(s, earlier), cutoff) == Later(s, cutoff)
  {
    if s != [] {
      LaterTwice(s[1..], earlier, cutoff);
      LaterConcat(if s[0] > earlier then [s[0]] else [], Later(s[1..], earlier), cutoff);
    }
  }

  lemma AscendingJoin(s: seq<int>, t: seq<int>)
    requires Ascending(s) && Ascending(t)
    requires forall g, h :: g in s && h in t ==> g <= h
    ensures Ascending(s + t)
  {
    forall i, j | 0 <= i < j < |s + t|
      ensures (s + t)[i] <= (s + t)[j]
    {
      if i < |s| <= j {
        assert s[i] in s && t[j - |s|] in t;
      }
    }
  }

  lemma {:induction false} LaterAscends(s: seq<int>, cutoff: int)
    requires Ascending(s)
    ensures Ascending(Later(s, cutoff))
  {
    if s != [] {
      LaterAscends(s[1..], cutoff);
      LaterMembers(s[1..], cutoff);
      AscendingJoin(if s[0] > cutoff then [s[0]] else [], Later(s[1..], cutoff));
    }
  }

  ghost predicate StampedBy(s: seq<int>, now: int) {
    Ascending(s) && forall g :: g in s ==> g <= now
  }

  lemma Stamp(s: seq<int>, earlier: int, stamped: int, now: int)
    requires StampedBy(s, earlier) && earlier <= stamped <= now
    ensures StampedBy(s, now) && StampedBy(s + [stamped], now)
  {
    AscendingJoin(s, [stamped]);
  }

  /** Hits and grants are stamped in order, and never after the clock. */
  lemma {:induction false} StampsAscend(l: Limits, history: seq<Request>, key: string, now: int)
    requires Monotone(history, now)
    ensures StampedBy(Grants(l, history, key), now) && StampedBy(HitsOf(After(l, history), key), now)
  {
    if history != [] {
      var q := history[|history| - 1];
      var rest := history[..|history| - 1];
      StampsAscend(l, rest, key, q.read);
      LastRequest(l, history, key);
      var before := HitsOf(After(l, rest), key);
      PoppedIsLater(before, q.read - l.window);
      LaterAscends(before, q.read - l.window);
      LaterMembers(before, q.read - l.window);
      var at := if q.Acquire? then q.stamped else q.read;
      assert StampedBy(Popped(before, q.read - l.window), q.read);
      hide After, Grants, Popped, Later, Ascending, StampedBy;
      Stamp(Grants(l, rest, key), q.read, at, now);
      Stamp(before, q.read, at, now);
      Stamp(Popped(before, q.read - l.window), q.read, at, now);
    }
  }

  /** Dropping what is too old makes a key's deque and its grants equal. */
  ghost predicate HoldsWindow(l: Limits, history: seq<Request>, key: string, now: int) {
    Later(HitsOf(After(l, history), key), now - l.window) == Recent(l, Grants(l, history, key), now)
  }

  lemma {:induction false} DequeHoldsWindow(l: Limits, history: seq<Request>, key: string, now: int)
    requires Monotone(history, now)
    ensures HoldsWindow(l, history, key, now)
  {
    if history != [] {
      DequeHoldsWindow(l, history[..|history| - 1], key, history[|history| - 1].read);
      OneMoreRequest(l, history, key, now);
    }
  }

  lemma OneMoreRequest(l: Limits, history: seq<Request>, key: string, now: int)
    requires history != [] && Monotone(history, now)
    requires HoldsWindow(l, history[..|history| - 1], key, history[|history| - 1].read)
    ensures HoldsWindow(l, history, key, now)
  {
    hide After, Grants, Popped, Later, Ascending;
    var n := |history| - 1;
    var q := history[n];
    var cutoff, newCutoff := q.read - l.window, now - l.window;
    StampsAscend(l, history[..n], key, q.read);
    LastRequest(l, history, key);
    var before, grants := HitsOf(After(l, history[..n]), key), Grants(l, history[..n], key);
    LaterTwice(before, cutoff, newCutoff);
    LaterTwice(grants, cutoff, newCutoff);
    PoppedIsLater(before, cutoff);
    if q.Acquire? {
      LaterConcat(Later(before, cutoff), [q.stamped], newCutoff);
      LaterConcat(grants, [q.stamped], newCutoff);
    }
  }

  /** A request is refused exactly when the window behind it already holds `limit` grants. */
  lemma RefusedExactlyWhenFull(l: Limits, history: seq<Request>, key: string, read: int, stamped: int)
    requires Monotone(history, read) && read <= stamped
    ensures var r := Serve(l, After(l, history), Acquire(key, read, stamped)).1;
            var used := |Recent(l, Grants(l, history, key), read)|;
            && (r.None? <==> used >= l.limit)
            && (r.Some? ==> r.value == l.limit - used - 1)
  {
    DequeHoldsWindow(l, history, key, read);
    StampsAscend(l, history, key, read);
    PoppedIsLater(HitsOf(After(l, history), key), read - l.window);
  }

  // ---------------------------------------------------------------- no window is ever overfull

  /** Any `limit + 1` consecutive grants span at least a window. */
  ghost predicate Spaced(l: Limits, grants: seq<int>) {
    forall i :: 0 <= i && i + l.limit < |grants| ==> grants[i + l.limit] - grants[i] >= l.window
  }

  lemma {:induction false} GrantsAreSpaced(l: Limits, history: seq<Request>, key: string, now: int)
    requires Monotone(history, now)
    ensures Spaced(l, Grants(l, history, key))
  {
    if history != [] {
      var n := |history| - 1;
      var q := history[n];
      GrantsAreSpaced(l, history[..n], key, q.read);
      var grants := Grants(l, history[..n], key);
      if q.Acquire? && q.key == key && Serve(l, After(l, history[..n]), q).1.Some? {
        StampsAscend(l, history[..n], key, q.read);
        RefusedExactlyWhenFull(l, history[..n], key, q.read, q.stamped);
        if |grants| >= l.limit {
          TooFewRecent(l, grants, q.read);
        }
      }
    }
  }

  /** With fewer than `limit` recent grants, the limit-th last grant is already out of the window. */
  lemma TooFewRecent(l: Limits, grants: seq<int>, now: int)
    requires Ascending(grants) && |grants| >= l.limit && |Recent(l, grants, now)| < l.limit
    ensures grants[|grants| - l.limit] <= now - l.window
  {
    hide Later;
    var m := |grants| - l.limit;
    if grants[m] > now - l.window {
      assert grants == grants[..m] + grants[m..];
      LaterConcat(grants[..m], grants[m..], now - l.window);
      forall g | g in grants[m..]
        ensures g > now - l.window
      {
        var i :| m <= i < |grants| && grants[i] == g;
      }
      AllKept(grants[m..], now - l.window);
    }
  }

  /** Every half-open interval of one window's length holds at most `limit` grants of a key. */
  lemma NoWindowIsOverfull(l: Limits, history: seq<Request>, key: string, now: int, start: int)
    requires Monotone(history, now)
    ensures |Inside(Grants(l, history, key), start, start + l.window)| <= l.limit
  {
    GrantsAreSpaced(l, history, key, now);
    StampsAscend(l, history, key, now);
    FewInside(l, Grants(l, history, key), start);
  }

  lemma {:induction false} FewInside(l: Limits, grants: seq<int>, start: int)
    requires Ascending(grants) && Spaced(l, grants)
    ensures |Inside(grants, start, start + l.window)| <= l.limit
  {
    if |grants| > l.limit {
      var n := |grants| - 1;
      if grants[n] < start + l.window {
        LastFewInside(l, grants, start);
      } else {
        SpacedPrefix(l, grants, n);
        hide Inside, Ascending, Spaced;
        assert grants == grants[..n] + [grants[n]];
        InsideConcat(grants[..n], [grants[n]], start, start + l.window);
        NoneInside([grants[n]], start, start + l.window);
        FewInside(l, grants[..n], start);
      }
    }
  }

  lemma SpacedPrefix(l: Limits, grants: seq<int>, n: nat)
    requires n <= |grants| && Ascending(grants) && Spaced(l, grants)
    ensures Ascending(grants[..n]) && Spaced(l, grants[..n])
  {
    forall i | 0 <= i && i + l.limit < n
      ensures grants[..n][i + l.limit] - grants[..n][i] >= l.window
    {
      assert grants[i + l.limit] - grants[i] >= l.window;
    }
  }

  /** When even the last grant comes before the interval ends, only the last `limit` can be inside. */
  lemma LastFewInside(l: Limits, grants: seq<int>, start: int)
    requires Ascending(grants) && Spaced(l, grants) && |grants| > l.limit
    requires grants[|grants| - 1] < start + l.window
    ensures |Inside(grants, start, start + l.window)| <= l.limit
  {
    EarlyOnesAreOutside(l, grants, start);
    OnlyLastInside(grants, |grants| - l.limit, start, start + l.window);
  }

  lemma OnlyLastInside(s: seq<int>, m: nat, lo: int, hi: int)
    requires m <= |s| && forall i :: 0 <= i < m ==> s[..m][i] < lo
    ensures |Inside(s, lo, hi)| <= |s| - m
  {
    var early, late := s[..m], s[m..];
    assert s == early + late;
    hide Inside;
    InsideConcat(early, late, lo, hi);
    NoneInside(early, lo, hi);
    var inside := Inside(late, lo, hi);
  }

  lemma EarlyOnesAreOutside(l: Limits, grants: seq<int>, start: int)
    requires Ascending(grants) && Spaced(l, grants) && |grants| > l.limit
    requires grants[|grants| - 1] < start + l.window
    ensures var early := grants[..|grants| - l.limit]; forall i :: 0 <= i < |early| ==> early[i] < start
  {
    var m := |grants| - l.limit;
    assert grants[m - 1 + l.limit] - grants[m - 1] >= l.window;
    hide Spaced;
  }

  lemma {:induction false} NoneInside(s: seq<int>, lo: int, hi: int)
    requires forall i :: 0 <= i < |s| ==> s[i] < lo || s[i] >= hi
    ensures Inside(s, lo, hi) == []
  {
    if s != [] {
      NoneInside(s[1..], lo, hi);
    }
  }

  // ---------------------------------------------------------------- the shared form

  /** A key's sorted set: its scores, and when the store forgets the whole key. */
  datatype Scores = Scores(scores: seq<int>, expiresAt: int)

  type Shelf = map<string, Scores>

  /** The scores a script running at `now` finds: none once the key has expired. */
  function Found(scores: Option<Scores>, now: int): seq<int> {
    if scores.Some? && now < scores.value.expiresAt then scores.value.scores else []
  }

  /** `PEXPIRE` takes whole milliseconds, rounded up. */
  function Lifetime(l: Limits): int {
    (l.window + 999) / 1000 * 1000
  }

  /** Both scripts on one key: drop scores by range, count, and for `acquire` add one and renew the lifetime. */
  function ServeSharedKey(l: Limits, found: Option<Scores>, q: Request): (Option<Scores>, Option<int>) {
    var kept := Later(Found(found, q.read), q.read - l.window);
    var dropped := if found.Some? && q.read < found.value.expiresAt then Some(found.value.(scores := kept)) else None;
    match q
    case Remaining(_, _) => (dropped, Some(if l.limit > |kept| then l.limit - |kept| else 0))
    case Acquire(_, now, _) =>
      if |kept| >= l.limit then (dropped, None)
      else (Some(Scores(kept + [now], now + Lifetime(l))), Some(l.limit - |kept| - 1))
  }

  function OnShelf(shelf: Shelf, key: string): Option<Scores> {
    if key in shelf then Some(shelf[key]) else None
  }

  function ServeShared(l: Limits, shelf: Shelf, q: Request): (Shelf, Option<int>) {
    var (scores, answer) := ServeSharedKey(l, OnShelf(shelf, q.key), q);
    (if scores.Some? then shelf[q.key := scores.value] else shelf - {q.key}, answer)
  }

  function SharedAfter(l: Limits, history: seq<Request>): Shelf {
    if history == [] then map[]
    else ServeShared(l, SharedAfter(l, history[..|history| - 1]), history[|history| - 1]).0
  }

  /** Every `acquire` read the clock once, as a script does. */
  ghost predicate OneReading(history: seq<Request>) {
    forall q :: q in history && q.Acquire? ==> q.read == q.stamped
  }

  /** The key lives long enough for everything granted under it to leave the window. */
  ghost predicate Outlives(l: Limits, scores: Option<Scores>, grants: seq<int>, now: int) {
    if scores.Some? then forall g :: g in grants ==> g + Lifetime(l) <= scores.value.expiresAt
    else forall g :: g in grants ==> g <= now - l.window
  }

  /** An expired key had only scores the next script would have dropped. */
  lemma Forgotten(l: Limits, scores: Option<Scores>, grants: seq<int>, earlier: int, now: int)
    requires Outlives(l, scores, grants, earlier) && earlier <= now
    ensures scores.None? || now >= scores.value.expiresAt ==>
              Recent(l, grants, now) == [] && forall g :: g in grants ==> g <= now - l.window
  {
    if scores.None? || now >= scores.value.expiresAt {
      NoneLater(grants, now - l.window);
    }
  }

  lemma {:induction false} NoneLater(s: seq<int>, cutoff: int)
    requires forall g :: g in s ==> g <= cutoff
    ensures Later(s, cutoff) == []
  {
    if s != [] {
      assert s[0] in s && forall g :: g in s[1..] ==> g in s;
      NoneLater(s[1..], cutoff);
    }
  }

  lemma LastScript(l: Limits, history: seq<Request>, key: string)
    requires history != []
    ensures var n := |history| - 1;
            var before := OnShelf(SharedAfter(l, history[..n]), key);
            OnShelf(SharedAfter(l, history), key)
            == if history[n].key == key then ServeSharedKey(l, before, history[n]).0 else before
  {
  }

  ghost predicate ShelfHoldsWindow(l: Limits, history: seq<Request>, key: string, now: int) {
    var scores := OnShelf(SharedAfter(l, history), key);
    && Outlives(l, scores, Grants(l, history, key), now)
    && Later(Found(scores, now), now - l.window) == Recent(l, Grants(l, history, key), now)
  }

  lemma {:induction false} KeyOutlivesGrants(l: Limits, history: seq<Request>, key: string, now: int)
    requires Monotone(history, now) && OneReading(history)
    ensures ShelfHoldsWindow(l, history, key, now)
  {
    if history != [] {
      assert OneReading(history[..|history| - 1]);
      KeyOutlivesGrants(l, history[..|history| - 1], key, history[|history| - 1].read);
      OneMoreScript(l, history, key, now);
    }
  }

  lemma OneMoreScript(l: Limits, history: seq<Request>, key: string, now: int)
    requires history != [] && Monotone(history, now) && OneReading(history)
    requires ShelfHoldsWindow(l, history[..|history| - 1], key, history[|history| - 1].read)
    ensures ShelfHoldsWindow(l, history, key, now)
  {
    hide After, SharedAfter, Grants, Popped, Later, Ascending;
    var n := |history| - 1;
    var q := history[n];
    var cutoff, newCutoff := q.read - l.window, now - l.window;
    StampsAscend(l, history[..n], key, q.read);
    DequeHoldsWindow(l, history[..n], key, q.read);
    PoppedIsLater(HitsOf(After(l, history[..n]), key), cutoff);
    LastRequest(l, history, key);
    LastScript(l, history, key);
    var scores, grants := OnShelf(SharedAfter(l, history[..n]), key), Grants(l, history[..n], key);
    var kept := Later(Found(scores, q.read), cutoff);
    Forgotten(l, scores, grants, q.read, q.read);
    Forgotten(l, scores, grants, q.read, now);
    LaterTwice(Found(scores, q.read), cutoff, newCutoff);
    LaterTwice(grants, cutoff, newCutoff);
    if q.Acquire? {
      LaterConcat(kept, [q.stamped], newCutoff);
      LaterConcat(grants, [q.stamped], newCutoff);
      Forgotten(l, Some(Scores(kept + [q.stamped], q.stamped + Lifetime(l))), grants + [q.stamped], q.read, now);
    }
    NoneLater([], newCutoff);
  }

  /**
   On every history the two forms give every request the same answer: popping the front of a
   deque answers as deleting a range of scores, and the key's expiry changes nothing.
   */
  lemma SharedLimiterAgrees(l: Limits, history: seq<Request>, q: Request)
    requires Monotone(history, q.read) && OneReading(history) && (q.Acquire? ==> q.read == q.stamped)
    ensures ServeShared(l, SharedAfter(l, history), q).1 == Serve(l, After(l, history), q).1
  {
    hide After, SharedAfter, Later, Popped, Grants;
    KeyOutlivesGrants(l, history, q.key, q.read);
    DequeHoldsWindow(l, history, q.key, q.read);
    StampsAscend(l, history, q.key, q.read);
    PoppedIsLater(HitsOf(After(l, history), q.key), q.read - l.window);
  }
}
