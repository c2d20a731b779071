/** The stuck guard of the merge: how many items a merge can take before it may cut a page short, and
    which of the pages that are really fetched it can cut short. Both bounds are exact. */
module FeedGuard {
  import opened Arithmetic
  import opened Posts
  import opened FeedMerge
  import opened FeedMergeProofs
  import opened FeedLayout
  import opened FeedCursor
  import opened FeedPaging
  import opened FeedSamples

  // ---------- the worst input: one author's posts in front of everyone else's ----------

  const OUTSIDER := Post("o", "b", 0, 0, NoSource)

  /** How many posts of the crowd are in the general stream, and how many in the small one. */
  function InGeneral(cfg: Config): nat
    requires cfg.limit >= 1
  {
    var most := cfg.limit / 2 + 3;
    if cfg.Cap() + 3 <= most then cfg.Cap() + 3 else most
  }

  function InSmall(cfg: Config): nat
    requires cfg.limit >= 1
  {
    cfg.Cap() + 3 - InGeneral(cfg)
  }

  /** Streams that fit into one fetch: the main stream has nothing but the crowd, and behind the crowd at the end of
      the general stream stands one post by somebody else. */
  function CrowdStreams(cfg: Config): Streams
    requires cfg.limit >= 1
  {
    Streams(Line('m', cfg.limit + 8, cfg.limit + 8, false), Line('s', InSmall(cfg), InSmall(cfg), false),
            Line('g', InGeneral(cfg), InGeneral(cfg), false) + [OUTSIDER])
  }

  function CrowdBatches(cfg: Config): Batches
    requires cfg.limit >= 1
  {
    Batches(CrowdStreams(cfg).main, CrowdStreams(cfg).small, CrowdStreams(cfg).general)
  }

  lemma CrowdIsRanked(cfg: Config)
    requires cfg.limit >= 1
    ensures CrowdStreams(cfg).AllRanked()
  {
    var g := InGeneral(cfg);
    LineIsRanked('m', cfg.limit + 8, cfg.limit + 8, false);
    LineIsRanked('s', InSmall(cfg), InSmall(cfg), false);
    LineIsRanked('g', g, g, false);
  }

  /** A first page fetches just that. */
  lemma CrowdIsFetched(cfg: Config)
    requires cfg.limit >= 1 && cfg.Cap() < cfg.limit
    ensures Fetched(CrowdStreams(cfg), FIRST, cfg.limit, false) == CrowdBatches(cfg)
    ensures |CrowdBatches(cfg).All()| == cfg.limit + cfg.Cap() + 12
  {
  }

  // ---------- the merge of the crowd ----------

  predicate FromCrowd(p: Post, used: Counts) {
    && p.author == "a" && p.id != ""
    && (if p.id[0] == 'm' then |p.id| <= used.main else if p.id[0] == 's' then |p.id| <= used.small
        else p.id[0] == 'g' && |p.id| <= used.general)
  }

  ghost predicate OnlyCrowd(page: seq<Post>, used: Counts) {
    && (forall p :: p in page ==> FromCrowd(p, used)) && |AuthorIds(page, "a")| == |page|
  }

  /** The crowd fills the slots of its cap and is then skipped item by item; out of turn, the general
      stream comes last. */
  predicate CrowdCounts(cfg: Config, used: Counts, slots: nat, turn: nat)
    requires cfg.limit >= 1
  {
    && used.main <= cfg.limit + 8 && used.small <= InSmall(cfg) && used.general <= InGeneral(cfg)
    && slots == Min(used.Total(), cfg.Cap())
    && (used.general <= turn || (used.main == cfg.limit + 8 && used.small == InSmall(cfg)))
  }

  predicate InTurn(cfg: Config, slots: nat, turn: nat) {
    turn == slots / cfg.Every()
  }

  function TurnAfter(cfg: Config, slots: nat, turn: nat): nat {
    if IsExploreSlot(cfg, slots) then turn + 1 else turn
  }

  lemma TurnMovesOn(cfg: Config, slots: nat, turn: nat)
    requires InTurn(cfg, slots, turn)
    ensures InTurn(cfg, slots + 1, TurnAfter(cfg, slots, turn))
  {
    SlotBound(cfg.Every(), slots);
  }

  ghost predicate Crowded(cfg: Config, st: State)
    requires cfg.limit >= 1
  {
    && CrowdCounts(cfg, st.used, |st.page|, st.exploreTurn) && OnlyCrowd(st.page, st.used)
    && st.stuck == st.used.Total() - |st.page| && InTurn(cfg, |st.page|, st.exploreTurn)
    && st.outcome == (if st.stuck > cfg.limit + 10 then GaveUp else Running)
  }

  lemma HalfAtMost(x: nat, n: nat)
    requires n >= 2
    ensures x / n <= x / 2
  {
    DivMod(n, x);
    DivMod(2, x);
    if x / n > x / 2 { TwiceAtMost(n, x / n); }
  }

  lemma TwiceAtMost(n: nat, q: nat)
    requires n >= 2
    ensures n * q >= 2 * q
  {
  }

  /** As long as the loop runs, the post by somebody else is not next. */
  lemma OutsiderIsNotNext(cfg: Config, st: State)
    requires 1 <= cfg.limit && cfg.Cap() < cfg.limit && Crowded(cfg, st) && st.outcome.Running?
    ensures st.used.general < InGeneral(cfg)
  {
    HalfAtMost(|st.page|, cfg.Every());
  }

  lemma NextOfCrowd(cfg: Config, used: Counts, s: Stream)
    requires 1 <= cfg.limit && used.main <= cfg.limit + 8 && used.small <= InSmall(cfg) && used.general < InGeneral(cfg)
    requires used.Of(s) < |CrowdBatches(cfg).Of(s)|
    ensures var p := CrowdBatches(cfg).Of(s)[used.Of(s)]; FromCrowd(p, used.Bump(s)) && !FromCrowd(p, used)
  {
    var letter := match s case Main => 'm' case Small => 's' case General => 'g';
    assert CrowdBatches(cfg).Of(s)[used.Of(s)].id == Label(letter, used.Of(s));
  }

  /** So nothing of the crowd is on the page twice, and none of it is open once it has its slots. */
  lemma CrowdPassesNothing(cfg: Config, st: State)
    requires 1 <= cfg.limit && cfg.Cap() < cfg.limit && Crowded(cfg, st) && st.outcome.Running?
    ensures PassSeenAll(CrowdBatches(cfg), st.page, st.used) == st.used
    ensures forall s: Stream :: Open(st.page, CrowdBatches(cfg).Of(s), st.used.Of(s), cfg.Cap()) <==>
                                st.used.Of(s) < |CrowdBatches(cfg).Of(s)| && |st.page| < cfg.Cap()
  {
    OutsiderIsNotNext(cfg, st);
    forall s: Stream | st.used.Of(s) < |CrowdBatches(cfg).Of(s)|
      ensures CrowdBatches(cfg).Of(s)[st.used.Of(s)].id !in Ids(st.page)
      ensures CrowdBatches(cfg).Of(s)[st.used.Of(s)].author == "a"
    {
      NextOfCrowd(cfg, st.used, s);
      IdNotOnPage(st.page, st.used, CrowdBatches(cfg).Of(s)[st.used.Of(s)]);
    }
  }

  lemma IdNotOnPage(page: seq<Post>, used: Counts, p: Post)
    requires (forall q :: q in page ==> FromCrowd(q, used)) && p.author == "a" && !FromCrowd(p, used)
    ensures p.id !in Ids(page)
  {
    forall q | q in page ensures q.id != p.id { assert FromCrowd(q, used); }
  }

  /** Which stream the next item of the crowd is taken or skipped from. */
  lemma CrowdChoice(cfg: Config, st: State) returns (s: Stream)
    requires 1 <= cfg.limit && cfg.Cap() < cfg.limit && Crowded(cfg, st) && st.outcome.Running?
    ensures Choose(CrowdBatches(cfg), cfg, st.page, st.used, st.exploreTurn)
         == if |st.page| < cfg.Cap() then Take(s) else Skip(s)
    ensures st.used.Of(s) < |CrowdBatches(cfg).Of(s)|
    ensures s.General? && |st.page| < cfg.Cap() ==> IsExploreSlot(cfg, |st.page|)
    ensures s.General? && |st.page| >= cfg.Cap() ==> st.used.main == cfg.limit + 8 && st.used.small == InSmall(cfg)
  {
    CrowdPassesNothing(cfg, st);
    OutsiderIsNotNext(cfg, st);
    var c := Choose(CrowdBatches(cfg), cfg, st.page, st.used, st.exploreTurn);
    s := if c.Take? then c.stream else c.skipped;
  }

  lemma CountsMoveOn(cfg: Config, used: Counts, slots: nat, turn: nat, turn': nat, s: Stream)
    requires 1 <= cfg.limit && CrowdCounts(cfg, used, slots, turn) && used.general < InGeneral(cfg) && turn <= turn'
    requires match s case Main => used.main < cfg.limit + 8 case Small => used.small < InSmall(cfg) case General => true
    requires s.General? ==> turn' == turn + 1 || (used.main == cfg.limit + 8 && used.small == InSmall(cfg))
    ensures CrowdCounts(cfg, used.Bump(s), if slots < cfg.Cap() then slots + 1 else slots, turn')
  {
  }

  lemma CrowdGrows(page: seq<Post>, used: Counts, p: Post, s: Stream)
    requires OnlyCrowd(page, used) && FromCrowd(p, used.Bump(s)) && !FromCrowd(p, used)
    ensures OnlyCrowd(page, used.Bump(s)) && OnlyCrowd(page + [Tagged(p, s)], used.Bump(s))
  {
    IdNotOnPage(page, used, p);
    AppendedCount(page, Tagged(p, s), "a");
  }

  lemma CrowdTake(cfg: Config, st: State, s: Stream)
    requires 1 <= cfg.limit && cfg.Cap() < cfg.limit && Crowded(cfg, st) && st.outcome.Running?
    requires |st.page| < cfg.Cap() && st.used.general < InGeneral(cfg)
    requires st.used.Of(s) < |CrowdBatches(cfg).Of(s)|
    requires s.General? ==> IsExploreSlot(cfg, |st.page|)
    ensures Crowded(cfg, TakeFrom(CrowdBatches(cfg), cfg, st, s))
  {
    CrowdTaken(cfg, st, s);
    NotCovered(cfg, st.used, s);
  }

  lemma CrowdTaken(cfg: Config, st: State, s: Stream)
    requires 1 <= cfg.limit && cfg.Cap() < cfg.limit && Crowded(cfg, st) && st.outcome.Running?
    requires |st.page| < cfg.Cap() && st.used.general < InGeneral(cfg)
    requires st.used.Of(s) < |CrowdBatches(cfg).Of(s)|
    requires s.General? ==> IsExploreSlot(cfg, |st.page|)
    ensures Crowded(cfg, State(st.page + [Tagged(CrowdBatches(cfg).Of(s)[st.used.Of(s)], s)],
                               st.picks + [Pick(s, st.used.Of(s))], st.used.Bump(s),
                               TurnAfter(cfg, |st.page|, st.exploreTurn), 0, Running))
  {
    var turn' := TurnAfter(cfg, |st.page|, st.exploreTurn);
    TurnMovesOn(cfg, |st.page|, st.exploreTurn);
    CountsMoveOn(cfg, st.used, |st.page|, st.exploreTurn, turn', s);
    NextOfCrowd(cfg, st.used, s);
    CrowdGrows(st.page, st.used, CrowdBatches(cfg).Of(s)[st.used.Of(s)], s);
  }

  lemma CrowdSkip(cfg: Config, st: State, s: Stream)
    requires 1 <= cfg.limit && cfg.Cap() < cfg.limit && Crowded(cfg, st) && st.outcome.Running?
    requires |st.page| >= cfg.Cap() && st.used.general < InGeneral(cfg)
    requires st.used.Of(s) < |CrowdBatches(cfg).Of(s)|
    requires s.General? ==> st.used.main == cfg.limit + 8 && st.used.small == InSmall(cfg)
    ensures Crowded(cfg, SkipOver(CrowdBatches(cfg), cfg, st, s))
  {
    CountsMoveOn(cfg, st.used, |st.page|, st.exploreTurn, st.exploreTurn, s);
    NextOfCrowd(cfg, st.used, s);
    CrowdGrows(st.page, st.used, CrowdBatches(cfg).Of(s)[st.used.Of(s)], s);
    NotCovered(cfg, st.used, s);
  }

  lemma NotCovered(cfg: Config, used: Counts, s: Stream)
    requires 1 <= cfg.limit && used.general < InGeneral(cfg)
    ensures !used.Bump(s).Covers(CrowdBatches(cfg))
  {
  }

  lemma CrowdStep(cfg: Config, st: State)
    requires 1 <= cfg.limit && cfg.Cap() < cfg.limit && Crowded(cfg, st) && st.outcome.Running?
    ensures Crowded(cfg, Step(CrowdBatches(cfg), cfg, st))
  {
    CrowdPassesNothing(cfg, st);
    OutsiderIsNotNext(cfg, st);
    var s := CrowdChoice(cfg, st);
    if |st.page| < cfg.Cap() { CrowdTake(cfg, st, s); } else { CrowdSkip(cfg, st, s); }
  }

  lemma {:induction false} CrowdRun(cfg: Config, st: State)
    requires 1 <= cfg.limit && cfg.Cap() < cfg.limit && Crowded(cfg, st) && st.used.Within(CrowdBatches(cfg))
    ensures Crowded(cfg, Run(CrowdBatches(cfg), cfg, st)) && Finished(cfg, Run(CrowdBatches(cfg), cfg, st))
    decreases Remaining(CrowdBatches(cfg), st)
  {
    if !Finished(cfg, st) {
      StepProgress(CrowdBatches(cfg), cfg, st);
      CrowdStep(cfg, st);
      CrowdRun(cfg, Step(CrowdBatches(cfg), cfg, st));
    }
  }

  lemma CrowdIds(cfg: Config)
    requires cfg.limit >= 1
    ensures IdsDetermineAuthors(CrowdBatches(cfg).All()) && OUTSIDER in CrowdBatches(cfg).All()
  {
    var b := CrowdBatches(cfg);
    forall p | p in b.All() ensures p == OUTSIDER || (p.author == "a" && p.id[0] != 'o') {
      if p in b.main {
        var k :| 0 <= k < |b.main| && b.main[k] == p;
      } else if p in b.small {
        var k :| 0 <= k < |b.small| && b.small[k] == p;
      } else {
        var k :| 0 <= k < |b.general| && b.general[k] == p;
      }
    }
    assert b.general[InGeneral(cfg)] == OUTSIDER && OUTSIDER in b.general;
  }

  lemma OutsiderIsLeftOut(cfg: Config)
    requires 1 <= cfg.limit && cfg.Cap() < cfg.limit
    ensures LeavesOutsiderOut(cfg, Merge(CrowdBatches(cfg), cfg).page)
  {
    CrowdStarts(cfg);
    RunLeavesOutsiderOut(cfg, START);
  }

  ghost predicate CrowdReady(cfg: Config, st: State)
    requires cfg.limit >= 1
  {
    Crowded(cfg, st) && st.used.Within(CrowdBatches(cfg))
  }

  /** There is room for the post, and it is not on the page. */
  predicate LeavesOutsiderOut(cfg: Config, page: seq<Post>) {
    |page| < cfg.limit && !Settled(page, OUTSIDER, cfg.Cap())
  }

  lemma RunLeavesOutsiderOut(cfg: Config, st: State)
    requires 1 <= cfg.limit && cfg.Cap() < cfg.limit && CrowdReady(cfg, st)
    ensures LeavesOutsiderOut(cfg, Run(CrowdBatches(cfg), cfg, st).page)
  {
    CrowdRun(cfg, st);
    CrowdEnds(cfg, Run(CrowdBatches(cfg), cfg, st));
  }

  lemma CrowdEnds(cfg: Config, end: State)
    requires 1 <= cfg.limit && cfg.Cap() < cfg.limit && Crowded(cfg, end)
    ensures LeavesOutsiderOut(cfg, end.page)
  {
    NobodyElse(end.page, end.used, cfg.Cap());
  }

  lemma CrowdStarts(cfg: Config)
    requires cfg.limit >= 1
    ensures CrowdReady(cfg, START)
  {
    SlotBound(cfg.Every(), 0);
    assert AuthorIds([], "a") == {};
  }

  lemma NobodyElse(page: seq<Post>, used: Counts, cap: nat)
    requires OnlyCrowd(page, used) && cap >= 1
    ensures !Settled(page, OUTSIDER, cap)
  {
    forall p | p in page ensures p.author != "b" && p.id != OUTSIDER.id { assert FromCrowd(p, used); }
    assert AuthorIds(page, "b") == {};
  }

  /** A page that is fetched from well-ordered streams, all posts of which are within one fetch, and that leaves
      a post out although there is room for it: with a limit above the cap there always is one. */
  lemma CrowdIsCutShort(cfg: Config)
    requires 1 <= cfg.limit && cfg.Cap() < cfg.limit
    ensures var p := FetchPage(CrowdStreams(cfg), cfg, FIRST, false);
            && CrowdStreams(cfg).AllRanked() && p.batches == CrowdBatches(cfg)
            && IdsDetermineAuthors(p.batches.All()) && |p.batches.All()| == cfg.limit + cfg.Cap() + 12
            && |p.end.page| < Min(cfg.limit, Room(p.batches.All(), cfg.Cap()))
  {
    CrowdIsRanked(cfg);
    CrowdIsFetched(cfg);
    CrowdIds(cfg);
    PageSize(CrowdBatches(cfg), cfg);
    OutsiderIsLeftOut(cfg);
  }

  // ---------- the bounds ----------

  /** Whatever holds at most `n` items is merged into a page of the exact size. */
  ghost predicate AlwaysExactUpTo(cfg: Config, n: nat) {
    forall b: Batches :: |b.All()| <= n && IdsDetermineAuthors(b.All()) ==>
      |Merge(b, cfg).page| == Min(cfg.limit, Room(b.All(), cfg.Cap()))
  }

  /** The page is exact on every input of at most `n` items exactly when the cap is at least the page
      size, or `n` is at most `limit + cap + 11`. */
  lemma GuardThreshold(cfg: Config, n: nat)
    requires cfg.limit >= 1
    ensures AlwaysExactUpTo(cfg, n) <==> cfg.limit <= cfg.Cap() || n <= cfg.limit + cfg.Cap() + 11
  {
    if cfg.limit <= cfg.Cap() || n <= cfg.limit + cfg.Cap() + 11 {
      forall b: Batches | |b.All()| <= n && IdsDetermineAuthors(b.All())
        ensures |Merge(b, cfg).page| == Min(cfg.limit, Room(b.All(), cfg.Cap()))
      {
        ExactPageSize(b, cfg);
      }
    } else {
      CrowdIsCutShort(cfg);
    }
  }

  ghost predicate ExactFetch(cfg: Config, followingOnly: bool, st: Streams, c: Cursor)
    requires cfg.limit >= 1
  {
    var p := FetchPage(st, cfg, c, followingOnly);
    IdsDetermineAuthors(p.batches.All()) ==> |p.end.page| == Min(cfg.limit, Room(p.batches.All(), cfg.Cap()))
  }

  /** Every page that is fetched, from whatever streams and behind whatever cursor, has the exact size exactly when
      the cap is at least the page size, or there are no explore streams. */
  lemma FetchedPagesAreExact(cfg: Config, followingOnly: bool)
    requires cfg.limit >= 1
    ensures (forall st: Streams, c :: st.AllRanked() ==> ExactFetch(cfg, followingOnly, st, c)) <==>
            followingOnly || cfg.limit <= cfg.Cap()
  {
    if followingOnly || cfg.limit <= cfg.Cap() {
      forall st: Streams, c | st.AllRanked() ensures ExactFetch(cfg, followingOnly, st, c) {
        var p := FetchPage(st, cfg, c, followingOnly);
        if IdsDetermineAuthors(p.batches.All()) { ExactPageSize(p.batches, cfg); }
      }
    } else {
      CrowdIsCutShort(cfg);
      assert !ExactFetch(cfg, false, CrowdStreams(cfg), FIRST);
    }
  }
}
