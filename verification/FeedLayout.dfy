/** Where each slot of a page comes from when nothing gets in the way: no post is repeated, no
    author exceeds the cap, and the streams are long enough. */
module FeedLayout {
  import opened Arithmetic
  import opened Basics
  import opened Posts
  import opened FeedMerge
  import opened FeedMergeProofs

  ghost predicate Plain(b: Batches, cfg: Config) {
    && DistinctIds(b.All()) && (forall a :: |AuthorIds(b.All(), a)| <= cfg.Cap())
    && cfg.limit >= 1
    && |b.main| >= cfg.limit - cfg.limit / cfg.Every()
    && |b.small| >= (cfg.limit / cfg.Every() + 1) / 2
    && |b.general| >= cfg.limit / cfg.Every() / 2
  }

  /** Slot `k` (from 0): every n-th slot is an explore slot, small and general in turn. */
  function SlotSource(n: nat, k: nat): Pick
    requires n >= 2
  {
    SlotBound(n, k);
    var j := k / n;
    if (k + 1) % n != 0 then Pick(Main, k - j)
    else if j % 2 == 0 then Pick(Small, j / 2)
    else Pick(General, j / 2)
  }

  lemma SlotBound(n: nat, k: nat)
    requires n >= 2
    ensures 0 <= k / n <= k
    ensures (k + 1) / n == k / n + (if (k + 1) % n == 0 then 1 else 0)
  {
    var q, r := k / n, k % n;
    DivMod(n, k);
    QuotientBound(n, k, q, r);
    if r + 1 < n {
      DivUnique(n, k + 1, q, r + 1);
    } else {
      MulSucc(n, q);
      DivUnique(n, k + 1, q + 1, 0);
    }
  }

  lemma QuotientBound(n: nat, k: nat, q: nat, r: nat)
    requires n >= 1 && k == n * q + r
    ensures q <= k
  {
    MulGap(n, q);
  }

  lemma {:induction false} SlotsGrow(n: nat, j: nat, k: nat)
    requires n >= 2 && j <= k
    ensures j / n <= k / n && j - j / n <= k - k / n
    decreases k
  {
    if j < k {
      SlotsGrow(n, j, k - 1);
      SlotBound(n, k - 1);
    }
  }

  function PlainUsed(n: nat, k: nat): Counts
    requires n >= 2
  {
    SlotBound(n, k);
    Counts(k - k / n, (k / n + 1) / 2, k / n / 2)
  }

  ghost predicate LaidOut(n: nat, picks: seq<Pick>)
    requires n >= 2
  {
    forall i :: 0 <= i < |picks| ==> picks[i] == SlotSource(n, i)
  }

  ghost predicate Formed(cfg: Config, st: State) {
    var n, k := cfg.Every(), |st.page|;
    && k <= cfg.limit && |st.picks| == k && LaidOut(n, st.picks)
    && st.used == PlainUsed(n, k) && st.exploreTurn == k / n && st.stuck == 0
    && (k < cfg.limit ==> st.outcome.Running?)
  }

  function Offset(b: Batches, s: Stream): nat {
    match s case Main => 0 case Small => |b.main| case General => |b.main| + |b.small|
  }

  lemma NextIsNew(b: Batches, st: State, s: Stream)
    requires Linked(b, st) && DistinctIds(b.All()) && st.used.Of(s) < |b.Of(s)|
    ensures b.Of(s)[st.used.Of(s)].id !in Ids(st.page)
  {
    var all, at := b.All(), Offset(b, s) + st.used.Of(s);
    assert all[at] == b.Of(s)[st.used.Of(s)];
    forall k | 0 <= k < |st.page| ensures st.page[k].id != all[at].id {
      var pick := st.picks[k];
      assert PickedFrom(b, st.used, pick, st.page[k]);
      var at' := Offset(b, pick.stream) + pick.index;
      assert all[at'] == b.Of(pick.stream)[pick.index] && at' != at;
    }
  }

  lemma NewHasRoom(page: seq<Post>, all: seq<Post>, p: Post)
    requires Drawn(page, all) && p in all && p.id !in Ids(page)
    ensures |AuthorIds(page, p.author)| < |AuthorIds(all, p.author)|
  {
    DrawnIds(page, all, p.author);
    assert p.id in AuthorIds(all, p.author);
    assert p.id !in AuthorIds(page, p.author) by { AppendedPost(page, p); }
    SubsetSize(AuthorIds(page, p.author), AuthorIds(all, p.author));
  }

  /** The next item of a stream is new and has room. */
  lemma NextIsOpen(b: Batches, cfg: Config, st: State, s: Stream)
    requires Linked(b, st) && DistinctIds(b.All()) && forall a :: |AuthorIds(b.All(), a)| <= cfg.Cap()
    requires st.used.Of(s) < |b.Of(s)|
    ensures Open(st.page, b.Of(s), st.used.Of(s), cfg.Cap())
  {
    NextIsNew(b, st, s);
    PageIsDrawn(b, st);
    var p := b.Of(s)[st.used.Of(s)];
    assert p in b.All() by { assert p in b.Of(s); }
    NewHasRoom(st.page, b.All(), p);
  }

  lemma PassesNothing(b: Batches, cfg: Config, st: State)
    requires Linked(b, st) && DistinctIds(b.All()) && forall a :: |AuthorIds(b.All(), a)| <= cfg.Cap()
    ensures PassSeenAll(b, st.page, st.used) == st.used
  {
    if st.used.main < |b.main| { NextIsOpen(b, cfg, st, Main); }
    if st.used.small < |b.small| { NextIsOpen(b, cfg, st, Small); }
    if st.used.general < |b.general| { NextIsOpen(b, cfg, st, General); }
  }

  /** The item that the layout asks for is there. */
  lemma SlotIsSupplied(b: Batches, cfg: Config, k: nat)
    requires Plain(b, cfg) && k < cfg.limit
    ensures var n := cfg.Every(); var pick := SlotSource(n, k);
            && pick.index < |b.Of(pick.stream)| && pick.index == PlainUsed(n, k).Of(pick.stream)
            && PlainUsed(n, k + 1) == PlainUsed(n, k).Bump(pick.stream)
  {
    SlotBound(cfg.Every(), k);
    SlotsGrow(cfg.Every(), k + 1, cfg.limit);
  }

  lemma NotCoveredYet(b: Batches, cfg: Config, k: nat)
    requires Plain(b, cfg) && PlainUsed(cfg.Every(), k).Covers(b)
    ensures k >= cfg.limit
  {
    SlotBound(cfg.Every(), k);
  }

  lemma FormedTake(b: Batches, cfg: Config, st: State)
    requires Plain(b, cfg) && Formed(cfg, st) && |st.page| < cfg.limit
    ensures var pick := SlotSource(cfg.Every(), |st.page|);
            st.used.Of(pick.stream) < |b.Of(pick.stream)| && Formed(cfg, TakeFrom(b, cfg, st, pick.stream))
  {
    var k := |st.page|;
    SlotIsSupplied(b, cfg, k);
    SlotBound(cfg.Every(), k);
    if PlainUsed(cfg.Every(), k + 1).Covers(b) { NotCoveredYet(b, cfg, k + 1); }
  }

  lemma FormedStep(b: Batches, cfg: Config, st: State)
    requires Plain(b, cfg) && Formed(cfg, st) && Linked(b, st) && |st.page| < cfg.limit
    ensures Formed(cfg, Step(b, cfg, st))
  {
    var pick := SlotSource(cfg.Every(), |st.page|);
    PassesNothing(b, cfg, st);
    FormedTake(b, cfg, st);
    NextIsOpen(b, cfg, st, pick.stream);
    assert Choose(b, cfg, st.page, st.used, st.exploreTurn) == Take(pick.stream);
  }

  lemma {:induction false} FormedRun(b: Batches, cfg: Config, st: State)
    requires Plain(b, cfg) && Formed(cfg, st) && Inv(b, cfg, st)
    ensures Formed(cfg, Run(b, cfg, st)) && |Run(b, cfg, st).page| == cfg.limit
    decreases Remaining(b, st)
  {
    if !Finished(cfg, st) {
      StepProgress(b, cfg, st);
      StepKeeps(b, cfg, st);
      FormedStep(b, cfg, st);
      FormedRun(b, cfg, Step(b, cfg, st));
    }
  }

  predicate FollowsLayout(b: Batches, n: nat, page: seq<Post>)
    requires n >= 2
  {
    forall k :: 0 <= k < |page| ==>
      var pick := SlotSource(n, k);
      pick.index < |b.Of(pick.stream)| && page[k] == Tagged(b.Of(pick.stream)[pick.index], pick.stream)
  }

  lemma LinkedLayout(b: Batches, n: nat, st: State)
    requires n >= 2 && Linked(b, st) && LaidOut(n, st.picks)
    ensures FollowsLayout(b, n, st.page)
  {
    forall k | 0 <= k < |st.page|
      ensures var pick := SlotSource(n, k);
              pick.index < |b.Of(pick.stream)| && st.page[k] == Tagged(b.Of(pick.stream)[pick.index], pick.stream)
    {
      assert PickedFrom(b, st.used, st.picks[k], st.page[k]);
    }
  }

  /** Where a merge of such streams ends: with a full page, and having used up what the layout says. */
  lemma PlainMerge(b: Batches, cfg: Config)
    requires Plain(b, cfg)
    ensures var end := Merge(b, cfg);
            |end.page| == cfg.limit && Linked(b, end) && LaidOut(cfg.Every(), end.picks)
            && end.used == PlainUsed(cfg.Every(), cfg.limit)
  {
    StartHolds(b, cfg);
    RunKeeps(b, cfg, START);
    StartIsFormed(cfg);
    FormedRun(b, cfg, START);
  }

  /** The layout of a page as a formula. */
  lemma PageLayout(b: Batches, cfg: Config)
    requires Plain(b, cfg)
    ensures |Merge(b, cfg).page| == cfg.limit && FollowsLayout(b, cfg.Every(), Merge(b, cfg).page)
  {
    PlainMerge(b, cfg);
    LinkedLayout(b, cfg.Every(), Merge(b, cfg));
  }

  lemma StartIsFormed(cfg: Config)
    requires cfg.limit >= 1
    ensures Formed(cfg, START)
  {
    SlotBound(cfg.Every(), 0);
  }
}
