/** The in-memory rate limiter: a log of recent hits per key, compacted in place. */
module RateLimiter {

  // ---------- the whole history as specification ----------

  function After(times: seq<int>, cutoff: int): (r: seq<int>)
    ensures |r| <= |times|
  {
    if times == [] then []
    else
      var last := times[|times| - 1];
      After(times[..|times| - 1], cutoff) + (if last > cutoff then [last] else [])
  }

  lemma {:induction false} AfterConcat(a: seq<int>, b: seq<int>, cutoff: int)
    ensures After(a + b, cutoff) == After(a, cutoff) + After(b, cutoff)
  {
    if b == [] {
      assert a + b == a;
    } else {
      AfterConcat(a, b[..|b| - 1], cutoff);
      assert (a + b)[..|a + b| - 1] == a + b[..|b| - 1];
    }
  }

  /** A later cutoff does not need what an earlier one threw away. */
  lemma {:induction false} AfterTwice(times: seq<int>, earlier: int, later: int)
    requires earlier <= later
    ensures After(After(times, earlier), later) == After(times, later)
  {
    if times != [] {
      var front, last := times[..|times| - 1], times[|times| - 1];
      AfterTwice(front, earlier, later);
      AfterConcat(After(front, earlier), if last > earlier then [last] else [], later);
    }
  }

  lemma {:induction false} AfterAll(times: seq<int>, cutoff: int)
    requires forall i :: 0 <= i < |times| ==> times[i] > cutoff
    ensures After(times, cutoff) == times
  {
    if times != [] {
      AfterAll(times[..|times| - 1], cutoff);
      assert times == times[..|times| - 1] + [times[|times| - 1]];
    }
  }

  /** Which of the hits came less than a window before `now`. */
  function InWindow(times: seq<int>, now: int, window: int): set<int> {
    set i | 0 <= i < |times| && now - times[i] < window
  }

  /** Live hits are counted by their times. */
  lemma {:induction false} LiveIsInWindow(times: seq<int>, now: int, window: int)
    ensures |Live(times, now, window)| == |InWindow(times, now, window)|
    ensures forall t :: t in Live(times, now, window) ==> now - t < window
  {
    if times != [] {
      var n, front := |times| - 1, times[..|times| - 1];
      LiveIsInWindow(front, now, window);
      assert InWindow(times, now, window)
          == InWindow(front, now, window) + (if now - times[n] < window then {n} else {});
    }
  }

  /** Hits at or before this time are outside the window. */
  function CutoffAt(now: int, window: int): int { now - window }

  /** The earlier allowed hits that lie within the window before `now`. */
  function Live(times: seq<int>, now: int, window: int): seq<int> {
    After(times, CutoffAt(now, window))
  }

  /** The hit at `i` was allowed when it came. */
  predicate Admitted(times: seq<int>, i: nat, limit: int, window: int)
    requires i < |times|
  {
    |Live(times[..i], times[i], window)| < limit
  }

  /** Time does not run backwards. */
  ghost predicate Timely(times: seq<int>) {
    forall i, j :: 0 <= i <= j < |times| ==> times[i] <= times[j]
  }

  predicate EndsBy(times: seq<int>, now: int) {
    times != [] ==> times[|times| - 1] <= now
  }

  /** The allowed hits of one key: every one of them was within the limit when it came. */
  ghost predicate Legal(times: seq<int>, limit: int, window: int) {
    Timely(times) && forall i :: 0 <= i < |times| ==> Admitted(times, i, limit, window)
  }

  /** If the `limit` hits from `j` on are all live, there are too many. */
  lemma TooManyLive(times: seq<int>, limit: int, cutoff: int, j: nat)
    requires j + limit == |times| && limit >= 0 && |After(times, cutoff)| < limit && Timely(times)
    ensures j < |times| && times[j] <= cutoff
  {
    assert times == times[..j] + times[j..];
    AfterConcat(times[..j], times[j..], cutoff);
    if j < |times| && times[j] > cutoff { AfterAll(times[j..], cutoff); }
  }

  /** Any `limit + 1` allowed hits of one key in a row span at least the window. */
  lemma HitsAreSpaced(times: seq<int>, limit: int, window: int, j: nat)
    requires Legal(times, limit, window) && 0 <= j + limit < |times|
    ensures limit >= 1 && times[j + limit] - times[j] >= window
  {
    assert Admitted(times, j + limit, limit, window);
    TooManyLive(times[..j + limit], limit, times[j + limit] - window, j);
  }

  // ---------- the limiter ----------

  /** A slice: a backing array and how much of it is in use. */
  datatype Slice = Slice(buf: array<int>, len: nat)

  /** Drops the expired times, moving the others to the front of the same array; a write never
      overtakes the reads. */
  method Compact(buf: array<int>, len: nat, cutoff: int) returns (kept: nat)
    requires len <= buf.Length
    modifies buf
    ensures kept <= len && buf[..kept] == After(old(buf[..len]), cutoff)
  {
    ghost var times := buf[..len];
    kept := 0;
    for i := 0 to len
      invariant kept <= i && buf[..kept] == After(times[..i], cutoff)
      invariant forall j :: i <= j < len ==> buf[j] == times[j]
    {
      assert times[..i + 1][..i] == times[..i];
      if buf[i] > cutoff {
        buf[kept] := buf[i];
        kept := kept + 1;
      }
    }
    assert times[..len] == times;
  }

  const MAX_TRACKED_KEYS := 10000

  function TimesOf(contents: map<string, seq<int>>, key: string): seq<int> {
    if key in contents then contents[key] else []
  }

  function Swept(contents: map<string, seq<int>>, cutoff: int): map<string, seq<int>> {
    map k | k in contents && After(contents[k], cutoff) != [] :: After(contents[k], cutoff)
  }

  /** The keys in `todo` are still to be swept. */
  function PartlySwept(contents: map<string, seq<int>>, todo: set<string>, cutoff: int): map<string, seq<int>> {
    map k | k in contents && (k in todo || After(contents[k], cutoff) != [])
      :: if k in todo then contents[k] else After(contents[k], cutoff)
  }

  lemma SweepOne(contents: map<string, seq<int>>, todo: set<string>, k: string, cutoff: int)
    requires k in todo && todo <= contents.Keys
    ensures var m, kept := PartlySwept(contents, todo, cutoff), After(contents[k], cutoff);
            && k in m && m[k] == contents[k]
            && PartlySwept(contents, todo - {k}, cutoff) == if kept == [] then m - {k} else m[k := kept]
  {}

  lemma SweepEnds(contents: map<string, seq<int>>, cutoff: int)
    ensures PartlySwept(contents, contents.Keys, cutoff) == contents
    ensures PartlySwept(contents, {}, cutoff) == Swept(contents, cutoff)
  {}

  /** From `cutoff` on, what is kept is as good as the whole history, for every key. */
  ghost predicate Faithful(contents: map<string, seq<int>>, history: map<string, seq<int>>, cutoff: int) {
    forall key :: KeyFaithful(contents, history, cutoff, key)
  }

  ghost predicate KeyFaithful(contents: map<string, seq<int>>, history: map<string, seq<int>>,
                              cutoff: int, key: string)
  {
    SameFrom(TimesOf(contents, key), TimesOf(history, key), cutoff)
  }

  ghost predicate SameFrom(kept: seq<int>, times: seq<int>, cutoff: int) {
    forall c :: c >= cutoff ==> After(kept, c) == After(times, c)
  }

  function MaybeSwept(contents: map<string, seq<int>>, cutoff: int): map<string, seq<int>> {
    if |contents| > MAX_TRACKED_KEYS then Swept(contents, cutoff) else contents
  }

  /** What is tracked after the sweep, if there are too many keys, and the compaction of one key. */
  function Prepared(contents: map<string, seq<int>>, key: string, cutoff: int): map<string, seq<int>> {
    var swept := MaybeSwept(contents, cutoff);
    swept[key := After(TimesOf(swept, key), cutoff)]
  }

  /** What is tracked after a call, and its answer. */
  function Answered(contents: map<string, seq<int>>, key: string, now: int, limit: int, window: int)
    : (map<string, seq<int>>, bool)
  {
    var prepared := Prepared(contents, key, CutoffAt(now, window));
    if |prepared[key]| < limit then (WithHit(prepared, key, now), true) else (prepared, false)
  }

  /** Nothing is kept that is not in the history. */
  ghost predicate Within(contents: map<string, seq<int>>, history: map<string, seq<int>>) {
    forall key :: KeyWithin(contents, history, key)
  }

  ghost predicate KeyWithin(contents: map<string, seq<int>>, history: map<string, seq<int>>, key: string) {
    NoMore(TimesOf(contents, key), TimesOf(history, key))
  }

  ghost predicate NoMore(kept: seq<int>, times: seq<int>) {
    forall c :: |After(kept, c)| <= |After(times, c)|
  }

  /** Every one of the keys has an allowed hit after the cutoff. */
  ghost predicate AllLive(keys: set<string>, history: map<string, seq<int>>, cutoff: int) {
    forall k :: k in keys ==> After(TimesOf(history, k), cutoff) != []
  }

  ghost predicate AllLegal(history: map<string, seq<int>>, limit: int, window: int, now: int) {
    forall k :: k in history ==> Legal(history[k], limit, window) && EndsBy(history[k], now)
  }

  /** An answer about hits at these times, when a cutoff as late as `later` has been used already: a hit is never
      refused while fewer than `limit` times lie within its window, and never let through when so many lie after
      the later cutoff. */
  ghost predicate Fair(times: seq<int>, ok: bool, limit: int, cutoff: int, later: int) {
    && (|After(times, cutoff)| < limit ==> ok)
    && (ok ==> |After(times, later)| < limit)
  }

  class RateLimiter {
    var hits: map<string, Slice>
    const limit: int
    const window: int
    /** What the slices hold, and the backing arrays they use. */
    ghost var contents: map<string, seq<int>>
    ghost var owner: map<array<int>, string>
    /** Every allowed hit of every key so far, the latest time of a call so far, and whether no call has come
        with an earlier time than the one before it. */
    ghost var history: map<string, seq<int>>
    ghost var clock: int
    ghost var timely: bool

    ghost function Buffers(): set<array<int>>
      reads this`owner
    {
      owner.Keys
    }

    ghost predicate Holds(slice: Slice, times: seq<int>)
      reads slice.buf
    {
      slice.len <= slice.buf.Length && slice.buf[..slice.len] == times
    }

    /** The slices hold the contents, and each key has a backing array of its own. */
    ghost predicate Shaped()
      reads this`hits, this`contents, this`owner, Buffers()
    {
      && contents.Keys == hits.Keys
      && (forall k :: k in hits ==> hits[k].buf in owner && owner[hits[k].buf] == k)
      && (forall k :: k in hits ==> Holds(hits[k], contents[k]))
    }

    ghost predicate Valid()
      reads this, Buffers()
    {
      && Shaped() && Faithful(contents, history, CutoffAt(clock, window)) && Within(contents, history)
      && (timely ==> AllLegal(history, limit, window, clock))
    }

    constructor (limit: int, window: int, ghost now: int)
      ensures Valid() && fresh(Buffers()) && history == map[] && clock == now && timely
      ensures this.limit == limit && this.window == window
    {
      this.limit, this.window, this.hits := limit, window, map[];
      this.history, this.clock, this.timely, this.owner, this.contents := map[], now, true, map[], map[];
    }

    /** Compacts the slice of one key. */
    method CompactKey(key: string, cutoff: int)
      requires Shaped() && key in hits
      modifies this`hits, this`contents, hits[key].buf
      ensures Shaped() && contents == old(contents)[key := After(old(contents[key]), cutoff)]
      ensures hits.Keys == old(hits.Keys) && hits[key].buf == old(hits[key].buf)
    {
      var slice := hits[key];
      var kept := Compact(slice.buf, slice.len, cutoff);
      hits, contents := hits[key := Slice(slice.buf, kept)], contents[key := slice.buf[..kept]];
    }

    /** Compacts one key and forgets it if nothing is left. */
    method Expire(key: string, cutoff: int)
      requires Shaped() && key in hits
      modifies this`hits, this`contents, hits[key].buf
      ensures Shaped()
      ensures var kept := After(old(contents[key]), cutoff);
              contents == if kept == [] then old(contents) - {key} else old(contents)[key := kept]
    {
      var slice := hits[key];
      var kept := Compact(slice.buf, slice.len, cutoff);
      if kept == 0 {
        hits, contents := hits - {key}, contents - {key};
      } else {
        hits, contents := hits[key := Slice(slice.buf, kept)], contents[key := slice.buf[..kept]];
      }
    }

    /** The sweep over all keys, in any order. */
    method Sweep(cutoff: int)
      requires Shaped()
      modifies this`hits, this`contents, Buffers()
      ensures Shaped() && contents == Swept(old(contents), cutoff)
    {
      var todo := hits.Keys;
      ghost var was := contents;
      SweepEnds(was, cutoff);
      while todo != {}
        invariant Shaped() && todo <= was.Keys && contents == PartlySwept(was, todo, cutoff)
      {
        var k :| k in todo;
        SweepOne(was, todo, k, cutoff);
        Expire(k, cutoff);
        todo := todo - {k};
      }
    }

    method Append(slice: Slice, t: int) returns (r: Slice)
      requires slice.len <= slice.buf.Length
      modifies slice.buf
      ensures r.len == slice.len + 1 <= r.buf.Length && r.buf[..r.len] == old(slice.buf[..slice.len]) + [t]
      ensures r.buf == slice.buf || fresh(r.buf)
    {
      ghost var was := slice.buf[..slice.len];
      if slice.len < slice.buf.Length {
        slice.buf[slice.len] := t;
        assert slice.buf[..slice.len + 1] == was + [t];
        r := Slice(slice.buf, slice.len + 1);
      } else {
        var bigger := new int[2 * slice.len + 1];
        for i := 0 to slice.len
          invariant slice.buf[..slice.len] == was && forall j :: 0 <= j < i ==> bigger[j] == slice.buf[j]
        {
          bigger[i] := slice.buf[i];
        }
        bigger[slice.len] := t;
        assert bigger[..slice.len + 1] == was + [t];
        r := Slice(bigger, slice.len + 1);
      }
    }

    /** Compacts the slice of one key, which may be missing, and stores it. */
    method Refresh(key: string, cutoff: int)
      requires Shaped()
      modifies this`hits, this`contents, this`owner, if key in hits then {hits[key].buf} else {}
      ensures Shaped() && fresh(Buffers() - old(Buffers())) && key in hits
      ensures contents == old(contents)[key := After(TimesOf(old(contents), key), cutoff)]
    {
      if key in hits {
        CompactKey(key, cutoff);
      } else {
        var buf := new int[0];
        hits, contents, owner := hits[key := Slice(buf, 0)], contents[key := []], owner[buf := key];
        assert Holds(hits[key], []);
      }
    }

    method Push(key: string, t: int)
      requires Shaped() && key in hits
      modifies this`hits, this`contents, this`owner, hits[key].buf
      ensures Shaped() && fresh(Buffers() - old(Buffers()))
      ensures contents == WithHit(old(contents), key, t) && hits.Keys == old(hits.Keys)
    {
      var slice := Append(hits[key], t);
      hits, contents, owner := hits[key := slice], contents[key := slice.buf[..slice.len]], owner[slice.buf := key];
    }

    method SweepIfFull(cutoff: int)
      requires Shaped()
      modifies this`hits, this`contents, Buffers()
      ensures Shaped() && contents == MaybeSwept(old(contents), cutoff)
    {
      assert |hits.Keys| == |contents.Keys|;
      if |hits| > MAX_TRACKED_KEYS {
        Sweep(cutoff);
      }
    }

    /** The first half of `Allow`: the sweep, if too many keys are tracked, and the compaction of the key. */
    method Prepare(key: string, cutoff: int) returns (live: nat)
      requires Shaped()
      modifies this`hits, this`contents, this`owner, Buffers()
      ensures Shaped() && fresh(Buffers() - old(Buffers()))
      ensures key in hits && contents == Prepared(old(contents), key, cutoff) && live == |contents[key]|
    {
      SweepIfFull(cutoff);
      Refresh(key, cutoff);
      assert Holds(hits[key], contents[key]);
      live := hits[key].len;
    }

    /** The time of a call is noted. */
    ghost method Tick(now: int)
      requires Valid()
      modifies this`clock, this`timely
      ensures Valid() && clock == Later(old(clock), now) && (timely <==> old(timely) && now >= old(clock))
    {
      FaithfulLater(contents, history, CutoffAt(clock, window), CutoffAt(Later(clock, now), window));
      if timely && now >= clock { LegalLater(history, limit, window, clock, now); }
      timely, clock := timely && now >= clock, Later(clock, now);
    }

    /** The first half of `Allow`, and what it means for the history. */
    method Settle(key: string, cutoff: int) returns (live: nat)
      requires Valid() && cutoff <= CutoffAt(clock, window)
      modifies this`hits, this`contents, this`owner, Buffers()
      ensures Valid() && fresh(Buffers() - old(Buffers())) && key in hits
      ensures |Live(TimesOf(history, key), clock, window)| <= live <= |After(TimesOf(history, key), cutoff)|
      ensures contents == Prepared(old(contents), key, cutoff) && live == |contents[key]|
      ensures |old(contents)| > MAX_TRACKED_KEYS ==> AllLive(hits.Keys - {key}, history, cutoff)
    {
      ghost var was := contents;
      live := Prepare(key, cutoff);
      PreparedIsFaithful(was, history, key, cutoff, CutoffAt(clock, window));
    }

    method Enter(key: string, now: int) returns (live: nat)
      requires Valid()
      modifies this`hits, this`contents, this`owner, this`clock, this`timely, Buffers()
      ensures Valid() && fresh(Buffers() - old(Buffers())) && key in hits
      ensures clock == Later(old(clock), now) && (timely <==> old(timely) && now >= old(clock))
      ensures |Live(TimesOf(history, key), clock, window)| <= live <= |Live(TimesOf(history, key), now, window)|
      ensures contents == Prepared(old(contents), key, CutoffAt(now, window)) && live == |contents[key]|
      ensures |old(contents)| > MAX_TRACKED_KEYS ==> AllLive(hits.Keys - {key}, history, CutoffAt(now, window))
    {
      Tick(now);
      live := Settle(key, CutoffAt(now, window));
    }

    /** Records a hit for the key if fewer than `limit` of its hits are left, and says whether it did: `Fair` tells
        when that is. After a sweep, every other key that is still tracked has a hit within the window. */
    method Allow(key: string, now: int) returns (ok: bool)
      requires Valid()
      modifies this, Buffers()
      ensures Valid() && fresh(Buffers() - old(Buffers()))
      ensures clock == Later(old(clock), now) && (timely <==> old(timely) && now >= old(clock))
      ensures Fair(TimesOf(old(history), key), ok, limit, CutoffAt(now, window), CutoffAt(clock, window))
      ensures now >= old(clock) ==> (ok <==> |InWindow(TimesOf(old(history), key), now, window)| < limit)
      ensures history == if ok then WithHit(old(history), key, now) else old(history)
      ensures (contents, ok) == Answered(old(contents), key, now, limit, window)
      ensures |old(contents)| > 10_000 ==> AllLive(hits.Keys - {key}, old(history), CutoffAt(now, window))
    {
      var live := Enter(key, now);
      LiveIsInWindow(TimesOf(history, key), now, window);
      ok := live < limit;
      if ok { Record(key, now); }
    }

    /** The second half of `Allow`. */
    method Record(key: string, now: int)
      requires Valid() && key in hits
      requires timely ==> now == clock && |Live(TimesOf(history, key), now, window)| < limit
      modifies this`hits, this`contents, this`owner, this`history, hits[key].buf
      ensures Valid() && fresh(Buffers() - old(Buffers())) && hits.Keys == old(hits.Keys)
      ensures history == WithHit(old(history), key, now) && contents == WithHit(old(contents), key, now)
    {
      ghost var was := contents;
      Push(key, now);
      HitIsFaithful(was, history, key, now, CutoffAt(clock, window));
      HitIsWithin(was, history, key, now);
      if timely { AllStayLegal(history, key, now, limit, window); }
      history := WithHit(history, key, now);
    }
  }

  function Later(t: int, u: int): int {
    if t < u then u else t
  }

  // ---------- what compaction and recording keep ----------

  lemma AllStayLegal(history: map<string, seq<int>>, key: string, now: int, limit: int, window: int)
    requires AllLegal(history, limit, window, now) && |Live(TimesOf(history, key), now, window)| < limit
    ensures AllLegal(WithHit(history, key, now), limit, window, now)
  {
    HitIsLegal(TimesOf(history, key), now, limit, window);
  }

  ghost predicate CompactedFrom(contents: map<string, seq<int>>, contents': map<string, seq<int>>, cutoff: int) {
    forall key :: KeyCompacted(contents, contents', cutoff, key)
  }

  ghost predicate KeyCompacted(contents: map<string, seq<int>>, contents': map<string, seq<int>>,
                               cutoff: int, key: string)
  {
    || TimesOf(contents', key) == TimesOf(contents, key)
    || TimesOf(contents', key) == After(TimesOf(contents, key), cutoff)
  }

  lemma CompactionIsFaithful(contents: map<string, seq<int>>, contents': map<string, seq<int>>,
                             history: map<string, seq<int>>, later: int, cutoff: int)
    requires Faithful(contents, history, later) && cutoff <= later
    requires CompactedFrom(contents, contents', cutoff)
    ensures Faithful(contents', history, later)
  {
    forall key ensures KeyFaithful(contents', history, later, key) {
      assert KeyFaithful(contents, history, later, key) && KeyCompacted(contents, contents', cutoff, key);
      forall c | c >= later ensures After(TimesOf(contents', key), c) == After(TimesOf(history, key), c) {
        AfterTwice(TimesOf(contents, key), cutoff, c);
      }
    }
  }

  lemma FaithfulLater(contents: map<string, seq<int>>, history: map<string, seq<int>>, earlier: int, later: int)
    requires Faithful(contents, history, earlier) && earlier <= later
    ensures Faithful(contents, history, later)
  {
    forall key ensures KeyFaithful(contents, history, later, key) {
      assert KeyFaithful(contents, history, earlier, key);
    }
  }

  /** Compacting first at one cutoff and then at any other keeps no more than compacting at the other. */
  lemma {:induction false} AfterShrinks(times: seq<int>, c: int, d: int)
    ensures |After(After(times, c), d)| <= |After(times, d)|
  {
    if times != [] {
      var front, last := times[..|times| - 1], times[|times| - 1];
      AfterShrinks(front, c, d);
      AfterConcat(After(front, c), if last > c then [last] else [], d);
    }
  }

  lemma CompactionStaysWithin(contents: map<string, seq<int>>, contents': map<string, seq<int>>,
                              history: map<string, seq<int>>, cutoff: int)
    requires Within(contents, history) && CompactedFrom(contents, contents', cutoff)
    ensures Within(contents', history)
  {
    forall key ensures KeyWithin(contents', history, key) {
      assert KeyWithin(contents, history, key) && KeyCompacted(contents, contents', cutoff, key);
      forall c ensures |After(TimesOf(contents', key), c)| <= |After(TimesOf(history, key), c)| {
        AfterShrinks(TimesOf(contents, key), cutoff, c);
      }
    }
  }

  /** What compacting one key leaves of it. */
  lemma KeyCompaction(contents: map<string, seq<int>>, history: map<string, seq<int>>, key: string,
                      cutoff: int, later: int)
    requires Faithful(contents, history, later) && Within(contents, history) && cutoff <= later
    ensures var kept := After(TimesOf(contents, key), cutoff);
            && Faithful(contents[key := kept], history, later) && Within(contents[key := kept], history)
            && |After(TimesOf(history, key), later)| <= |kept| <= |After(TimesOf(history, key), cutoff)|
  {
    var kept := After(TimesOf(contents, key), cutoff);
    CompactedKey(contents, key, cutoff);
    CompactionIsFaithful(contents, contents[key := kept], history, later, cutoff);
    CompactionStaysWithin(contents, contents[key := kept], history, cutoff);
    AfterTwice(TimesOf(contents, key), cutoff, later);
    FaithfulAt(contents, history, key, later);
    WithinAt(contents, history, key, cutoff);
  }

  lemma WithinAt(contents: map<string, seq<int>>, history: map<string, seq<int>>, key: string, cutoff: int)
    requires Within(contents, history)
    ensures |After(TimesOf(contents, key), cutoff)| <= |After(TimesOf(history, key), cutoff)|
  {
    assert KeyWithin(contents, history, key);
  }

  /** The first half of `Allow`: what is left of the key are at least the hits after the latest cutoff so far,
      and at most those after this cutoff. */
  lemma PreparedIsFaithful(contents: map<string, seq<int>>, history: map<string, seq<int>>, key: string,
                           cutoff: int, later: int)
    requires Faithful(contents, history, later) && Within(contents, history) && cutoff <= later
    ensures var prepared := Prepared(contents, key, cutoff);
            && Faithful(prepared, history, later) && Within(prepared, history)
            && |After(TimesOf(history, key), later)| <= |prepared[key]| <= |After(TimesOf(history, key), cutoff)|
            && (|contents| > MAX_TRACKED_KEYS ==> AllLive(prepared.Keys - {key}, history, cutoff))
  {
    var swept := MaybeSwept(contents, cutoff);
    if |contents| > MAX_TRACKED_KEYS {
      SweptIsFaithful(contents, history, cutoff, later);
      SweptIsLive(contents, history, cutoff);
    }
    KeyCompaction(swept, history, key, cutoff, later);
  }

  lemma SweptIsFaithful(contents: map<string, seq<int>>, history: map<string, seq<int>>, cutoff: int, later: int)
    requires Faithful(contents, history, later) && Within(contents, history) && cutoff <= later
    ensures Faithful(Swept(contents, cutoff), history, later) && Within(Swept(contents, cutoff), history)
  {
    SweepCompacts(contents, cutoff);
    CompactionIsFaithful(contents, Swept(contents, cutoff), history, later, cutoff);
    CompactionStaysWithin(contents, Swept(contents, cutoff), history, cutoff);
  }

  lemma SweepCompacts(contents: map<string, seq<int>>, cutoff: int)
    ensures CompactedFrom(contents, Swept(contents, cutoff), cutoff)
  {
    forall key ensures KeyCompacted(contents, Swept(contents, cutoff), cutoff, key) {}
  }

  /** A fair answer is the exact one whenever the two cutoffs do not disagree about the limit, so whenever no time
      lies between them; where they disagree, either answer is fair. */
  lemma FairIsExact(times: seq<int>, ok: bool, limit: int, cutoff: int, later: int)
    requires cutoff <= later && Fair(times, ok, limit, cutoff, later)
    ensures var fits, fitsLater := |After(times, cutoff)| < limit, |After(times, later)| < limit;
            && (fits == fitsLater ==> ok == fits)
            && (fits != fitsLater ==> Fair(times, !ok, limit, cutoff, later))
            && (NoneBetween(times, cutoff, later) ==> fits == fitsLater)
  {
    AfterTwice(times, cutoff, later);
    SameBetween(times, cutoff, later);
  }

  /** What a call does to the other keys: nothing, unless more than ten thousand are tracked; then they keep the hits
      in its window, and are forgotten if there are none. */
  lemma OtherKeys(contents: map<string, seq<int>>, key: string, other: string, now: int, limit: int, window: int)
    requires key != other
    ensures var (contents', _) := Answered(contents, key, now, limit, window);
            && TimesOf(contents', other) == (if |contents| > 10_000 then Live(TimesOf(contents, other), now, window)
                                             else TimesOf(contents, other))
            && (other in contents' <==> other in contents
                                        && (|contents| > 10_000 ==> InWindow(contents[other], now, window) != {}))
  {
    LiveIsInWindow(TimesOf(contents, other), now, window);
  }

  lemma FewKeys(contents: map<string, seq<int>>, key: string)
    requires contents.Keys <= {key}
    ensures |contents| <= 1
  {
    assert contents == if key in contents then map[key := contents[key]] else map[];
  }

  /** The call is let through, and then only its key is tracked, with these times. */
  ghost predicate LetThrough(contents: map<string, seq<int>>, key: string, now: int, limit: int, window: int,
                             times: seq<int>)
  {
    Answered(contents, key, now, limit, window) == (map[key := times], true)
  }

  lemma LoneKeyLetThrough(contents: map<string, seq<int>>, key: string, now: int, limit: int, window: int,
                          times: seq<int>)
    requires contents.Keys <= {key} && |times| <= limit
    requires times == Live(TimesOf(contents, key), now, window) + [now]
    ensures LetThrough(contents, key, now, limit, window, times)
  {
    FewKeys(contents, key);
    var prepared, kept := Prepared(contents, key, CutoffAt(now, window)), Live(TimesOf(contents, key), now, window);
    assert prepared == map[key := kept];
    assert WithHit(prepared, key, now) == map[key := times];
  }

  /** Two hits, and a call a window later that forgets both: a late call is let through at a time that has three
      hits in its window. */
  lemma LateCallIsLetThrough(key: string, limit: int, window: int, t: int)
    requires limit == 2 && window > 1
    ensures LetThrough(map[], key, t, limit, window, [t])
    ensures LetThrough(map[key := [t]], key, t, limit, window, [t, t])
    ensures LetThrough(map[key := [t, t]], key, t + window, limit, window, [t + window])
    ensures LetThrough(map[key := [t + window]], key, t + 1, limit, window, [t + window, t + 1])
    ensures Live([t, t, t + window], t + 1, window) == [t, t, t + window]
  {
    FirstLetThrough(key, limit, window, t);
    LetThroughKeepingAll(key, [t], t, limit, window, [t, t]);
    ForgetsTwo(key, limit, window, t);
    LetThroughKeepingAll(key, [t + window], t + 1, limit, window, [t + window, t + 1]);
    AllThreeInWindow(t, window);
  }

  lemma FirstLetThrough(key: string, limit: int, window: int, t: int)
    requires limit >= 1
    ensures LetThrough(map[], key, t, limit, window, [t])
  {
    LoneKeyLetThrough(map[], key, t, limit, window, [t]);
  }

  lemma AllThreeInWindow(t: int, window: int)
    requires window > 1
    ensures Live([t, t, t + window], t + 1, window) == [t, t, t + window]
  {
    AfterAll([t, t, t + window], t + 1 - window);
  }

  lemma LetThroughKeepingAll(key: string, kept: seq<int>, now: int, limit: int, window: int, times: seq<int>)
    requires |times| <= limit && times == kept + [now] && forall i :: 0 <= i < |kept| ==> kept[i] > now - window
    ensures LetThrough(map[key := kept], key, now, limit, window, times)
  {
    AfterAll(kept, now - window);
    LoneKeyLetThrough(map[key := kept], key, now, limit, window, times);
  }

  lemma ForgetsTwo(key: string, limit: int, window: int, t: int)
    requires limit >= 1
    ensures LetThrough(map[key := [t, t]], key, t + window, limit, window, [t + window])
  {
    var two := [t, t];
    assert two[..1] == [t];
    assert After([t], t) == [];
    LoneKeyLetThrough(map[key := two], key, t + window, limit, window, [t + window]);
  }

  /** No time lies after the one cutoff and not after the other. */
  ghost predicate NoneBetween(times: seq<int>, earlier: int, later: int) {
    forall i :: 0 <= i < |times| ==> !(earlier < times[i] <= later)
  }

  lemma {:induction false} SameBetween(times: seq<int>, earlier: int, later: int)
    requires earlier <= later
    ensures NoneBetween(times, earlier, later) ==> After(times, earlier) == After(times, later)
  {
    if times != [] && NoneBetween(times, earlier, later) {
      var front := times[..|times| - 1];
      assert forall i :: 0 <= i < |front| ==> front[i] == times[i];
      SameBetween(front, earlier, later);
    }
  }

  lemma CompactedKey(contents: map<string, seq<int>>, key: string, cutoff: int)
    ensures CompactedFrom(contents, contents[key := After(TimesOf(contents, key), cutoff)], cutoff)
  {
    var contents' := contents[key := After(TimesOf(contents, key), cutoff)];
    forall k ensures KeyCompacted(contents, contents', cutoff, k) {}
  }

  lemma FaithfulAt(contents: map<string, seq<int>>, history: map<string, seq<int>>, key: string, cutoff: int)
    requires Faithful(contents, history, cutoff)
    ensures After(TimesOf(contents, key), cutoff) == After(TimesOf(history, key), cutoff)
  {
    assert KeyFaithful(contents, history, cutoff, key);
  }

  lemma SweptIsLive(contents: map<string, seq<int>>, history: map<string, seq<int>>, cutoff: int)
    requires Within(contents, history)
    ensures AllLive(Swept(contents, cutoff).Keys, history, cutoff)
  {
    forall k | k in Swept(contents, cutoff) ensures After(TimesOf(history, k), cutoff) != [] {
      WithinAt(contents, history, k, cutoff);
    }
  }

  function WithHit(times: map<string, seq<int>>, key: string, now: int): map<string, seq<int>> {
    times[key := TimesOf(times, key) + [now]]
  }

  lemma HitIsWithin(contents: map<string, seq<int>>, history: map<string, seq<int>>, key: string, now: int)
    requires Within(contents, history)
    ensures Within(WithHit(contents, key, now), WithHit(history, key, now))
  {
    forall k ensures KeyWithin(WithHit(contents, key, now), WithHit(history, key, now), k) {
      assert KeyWithin(contents, history, k);
      if k == key { OneMoreWithin(TimesOf(contents, key), TimesOf(history, key), now); }
    }
  }

  lemma OneMoreWithin(kept: seq<int>, times: seq<int>, now: int)
    requires NoMore(kept, times)
    ensures NoMore(kept + [now], times + [now])
  {
    forall c ensures |After(kept + [now], c)| <= |After(times + [now], c)| {
      AfterConcat(kept, [now], c);
      AfterConcat(times, [now], c);
    }
  }

  lemma HitIsFaithful(contents: map<string, seq<int>>, history: map<string, seq<int>>, key: string,
                      now: int, cutoff: int)
    requires Faithful(contents, history, cutoff)
    ensures Faithful(WithHit(contents, key, now), WithHit(history, key, now), cutoff)
  {
    forall k ensures KeyFaithful(WithHit(contents, key, now), WithHit(history, key, now), cutoff, k) {
      assert KeyFaithful(contents, history, cutoff, k);
      if k == key { OneMoreSame(TimesOf(contents, key), TimesOf(history, key), now, cutoff); }
    }
  }

  lemma OneMoreSame(kept: seq<int>, times: seq<int>, now: int, cutoff: int)
    requires SameFrom(kept, times, cutoff)
    ensures SameFrom(kept + [now], times + [now], cutoff)
  {
    forall c | c >= cutoff ensures After(kept + [now], c) == After(times + [now], c) {
      AfterConcat(kept, [now], c);
      AfterConcat(times, [now], c);
    }
  }

  lemma LegalLater(history: map<string, seq<int>>, limit: int, window: int, earlier: int, later: int)
    requires AllLegal(history, limit, window, earlier) && earlier <= later
    ensures AllLegal(history, limit, window, later)
  {}

  lemma HitIsLegal(times: seq<int>, now: int, limit: int, window: int)
    requires Legal(times, limit, window) && EndsBy(times, now) && |Live(times, now, window)| < limit
    ensures Legal(times + [now], limit, window) && EndsBy(times + [now], now)
  {
    var times' := times + [now];
    forall i | 0 <= i < |times'| ensures Admitted(times', i, limit, window) {
      if i < |times| {
        assert Admitted(times, i, limit, window) && times'[..i] == times[..i];
      } else {
        assert times'[..i] == times;
      }
    }
  }
}
