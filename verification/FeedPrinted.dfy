/** Paging through printed cursors, as a client does it: what becomes of posts with a score below zero. */
module FeedPrinted {
  import opened Basics
  import opened Posts
  import opened FeedMerge
  import opened FeedMergeProofs
  import opened FeedCursor
  import opened FeedPaging
  import opened FeedSamples

  /** What a client brings back: the cursor that the text of a cursor is parsed to, or none. */
  function Reread(c: Cursor, snapshot: Int64): Cursor {
    match Parse(Encode(c, snapshot)) case Some(v) => v.0 case None => FIRST
  }

  function NextCursor(st: Streams, cfg: Config, followingOnly: bool, snapshot: Int64, c: Cursor): Cursor
    requires cfg.limit >= 1
  {
    Reread(FetchPage(st, cfg, c, followingOnly).next, snapshot)
  }

  function Iterate(f: Cursor -> Cursor, k: nat): Cursor {
    if k == 0 then FIRST else f(Iterate(f, k - 1))
  }

  /** The cursor after `k` pages. */
  function CursorAfter(st: Streams, cfg: Config, followingOnly: bool, snapshot: Int64, k: nat): Cursor
    requires cfg.limit >= 1
  {
    Iterate(c => NextCursor(st, cfg, followingOnly, snapshot, c), k)
  }

  function PrintedPage(st: Streams, cfg: Config, followingOnly: bool, snapshot: Int64, k: nat): PageResult
    requires cfg.limit >= 1
  {
    FetchPage(st, cfg, CursorAfter(st, cfg, followingOnly, snapshot, k), followingOnly)
  }

  /** There is always a next page, and never an empty one. */
  ghost predicate GoesOnForever(st: Streams, cfg: Config, followingOnly: bool, snapshot: Int64)
    requires cfg.limit >= 1
  {
    forall k: nat :: PrintedPage(st, cfg, followingOnly, snapshot, k).hasMore
                     && PrintedPage(st, cfg, followingOnly, snapshot, k).end.page != []
  }

  // ---------- with a cap that does not bind, every item that is used up is shown ----------

  lemma NothingIsSkipped(b: Batches, cfg: Config, st: State)
    requires |st.page| < cfg.Cap()
    requires forall s: Stream :: st.used.Of(s) < |b.Of(s)| ==> b.Of(s)[st.used.Of(s)].id !in Ids(st.page)
    ensures !Choose(b, cfg, st.page, st.used, st.exploreTurn).Skip?
  {
    var c := Choose(b, cfg, st.page, st.used, st.exploreTurn);
    if c.Skip? {
      CapFits(st.page, b.Of(c.skipped)[st.used.Of(c.skipped)].author);
      assert Open(st.page, b.Of(c.skipped), st.used.Of(c.skipped), cfg.Cap());
    }
  }

  lemma StepShowsAll(b: Batches, cfg: Config, st: State, cap: nat)
    requires |st.page| < cfg.Cap() && NothingLost(b, st.page, st.used, cap)
    ensures NothingLost(b, Step(b, cfg, st).page, Step(b, cfg, st).used, cap)
  {
    var st1 := st.(used := PassSeenAll(b, st.page, st.used));
    PassLosesNothing(b, st.page, st.used, cap);
    NextIsUnseen(b, st.page, st.used);
    NothingIsSkipped(b, cfg, st1);
    var c := Choose(b, cfg, st1.page, st1.used, st1.exploreTurn);
    if c.Take? { TakeLosesNothing(b, st1.page, st1.used, cap, c.stream); }
  }

  lemma {:induction false} RunShowsAll(b: Batches, cfg: Config, st: State, cap: nat)
    requires cfg.limit <= cfg.Cap() && st.used.Within(b) && NothingLost(b, st.page, st.used, cap)
    ensures NothingLost(b, Run(b, cfg, st).page, Run(b, cfg, st).used, cap)
    decreases Remaining(b, st)
  {
    if !Finished(cfg, st) {
      StepProgress(b, cfg, st);
      StepShowsAll(b, cfg, st, cap);
      RunShowsAll(b, cfg, Step(b, cfg, st), cap);
    }
  }

  lemma {:induction false} IdsSize(posts: seq<Post>)
    ensures |Ids(posts)| <= |posts|
    ensures DistinctIds(posts) ==> |Ids(posts)| == |posts|
  {
    if posts != [] {
      var front, p := posts[..|posts| - 1], posts[|posts| - 1];
      assert posts == front + [p];
      AppendedPost(front, p);
      IdsSize(front);
      if DistinctIds(posts) { assert p.id !in Ids(front); }
    }
  }

  /** So no page uses up more of the main stream than it has slots. */
  lemma UsesOnlyWhatItShows(b: Batches, cfg: Config)
    requires 1 <= cfg.limit <= cfg.Cap() && DistinctIds(b.main)
    ensures Merge(b, cfg).used.main <= cfg.limit
  {
    MergeInvariant(b, cfg);
    forall s: Stream ensures SettledUpTo([], b.Of(s), 0, cfg.limit + 1) {}
    RunShowsAll(b, cfg, START, cfg.limit + 1);
    var end := Merge(b, cfg);
    var taken := b.main[..end.used.main];
    forall id | id in Ids(taken) ensures id in Ids(end.page) {
      var i :| 0 <= i < |taken| && taken[i].id == id;
      assert SettledUpTo(end.page, b.Of(Main), end.used.Of(Main), cfg.limit + 1);
      assert Settled(end.page, b.Of(Main)[i], cfg.limit + 1);
      CapFits(end.page, b.main[i].author);
    }
    IdsSize(taken);
    IdsSize(end.page);
    SubsetSize(Ids(taken), Ids(end.page));
  }

  // ---------- posts below zero stay in front of every cursor ----------

  function Negatives(posts: seq<Post>): nat {
    if posts == [] then 0 else (if posts[0].score < 0 then 1 else 0) + Negatives(posts[1..])
  }

  lemma {:induction false} NegativesFit(posts: seq<Post>)
    ensures Negatives(posts) <= |posts|
  {
    if posts != [] { NegativesFit(posts[1..]); }
  }

  lemma {:induction false} NegativesAreBehind(s: seq<Post>, rank: int, id: string)
    requires rank >= 0
    ensures Negatives(AllBehind(ByScore, s, rank, id)) == Negatives(s)
  {
    if s != [] {
      NegativesAreBehind(s[1..], rank, id);
      if Behind(ByScore, rank, id, s[0]) {
        assert AllBehind(ByScore, s, rank, id)[1..] == AllBehind(ByScore, s[1..], rank, id);
      }
    }
  }

  /** The main stream is not done and stands, if anywhere, behind a score that is not negative: the only places
      a text can say. */
  predicate MainOpen(c: Cursor) {
    !c.main.done && (c.main.ok ==> c.main.rank >= 0)
  }

  lemma NegativesAreLeft(st: Streams, c: Cursor)
    requires MainOpen(c)
    ensures |RestMain(st, c)| >= Negatives(st.main)
  {
    if c.main.ok { NegativesAreBehind(st.main, c.main.rank, c.main.id); }
    NegativesFit(RestMain(st, c));
  }

  // ---------- exactly when paging never ends ----------

  predicate PlainIds(posts: seq<Post>) {
    forall p :: p in posts ==> '_' !in p.id && p.id != DONE_ID && p.id != UNSET_ID
  }

  /** Ids are distinct and hold no marker, and nothing is negative but scores of the main stream. */
  ghost predicate Sound(st: Streams) {
    && st.AllRanked() && DistinctIds(st.main) && PlainIds(st.main)
    && PrintableItems(st.small, ByTime) && PrintableItems(st.general, ByScore)
  }

  /** So many negative posts that no page can use them all up. */
  predicate TooMany(cfg: Config, n: nat) {
    n >= cfg.limit + 8 || (cfg.limit <= cfg.Cap() && n > cfg.limit)
  }

  lemma MainStaysOpen(st: Streams, cfg: Config, c: Cursor, followingOnly: bool)
    requires cfg.limit >= 1 && Sound(st) && MainOpen(c) && TooMany(cfg, Negatives(st.main))
    ensures var p := FetchPage(st, cfg, c, followingOnly);
            p.hasMore && p.end.page != [] && p.next.main.ok && !p.next.main.done
  {
    var p := FetchPage(st, cfg, c, followingOnly);
    var b := p.batches;
    NegativesAreLeft(st, c);
    FirstSlot(b, cfg);
    if |b.main| < MainReq(cfg.limit) {
      RestIsDistinct(st, c);
      UsesOnlyWhatItShows(b, cfg);
    }
  }

  lemma RestIsDistinct(st: Streams, c: Cursor)
    requires st.AllRanked() && DistinctIds(st.main)
    ensures DistinctIds(RestMain(st, c))
  {
    RestIsTail(ByScore, st.main, c.main);
    var rest := RestMain(st, c);
    forall i, j | 0 <= i < j < |rest| ensures rest[i].id != rest[j].id {
      assert rest[i] == st.main[|st.main| - |rest| + i] && rest[j] == st.main[|st.main| - |rest| + j];
    }
  }

  /** Reading the cursor back, a place behind a negative score is lost, any other is kept. */
  lemma RereadMain(st: Streams, cfg: Config, c: Cursor, followingOnly: bool, snapshot: Int64)
    requires cfg.limit >= 1 && Sound(st)
    ensures var next := FetchPage(st, cfg, c, followingOnly).next;
            next.main.ok && !next.main.done ==>
              Reread(next, snapshot) == if next.main.rank < 0 then next.(main := BLANK) else next
  {
    var next := FetchPage(st, cfg, c, followingOnly).next;
    NextSurvives(st, cfg, c, followingOnly);
    FetchedFromStream(ByScore, st.main, c.main, MainReq(cfg.limit));
    if next.main.ok && !next.main.done {
      if next.main.rank < 0 { NegativeScoreStartsOver(next, snapshot); } else { RoundTrip(next, snapshot); }
    }
  }

  lemma {:induction false} IterateStaysOpen(f: Cursor -> Cursor, k: nat)
    requires forall c {:trigger f(c)} :: MainOpen(c) ==> MainOpen(f(c))
    ensures MainOpen(Iterate(f, k))
  {
    if k > 0 { IterateStaysOpen(f, k - 1); }
  }

  lemma NextStaysOpen(st: Streams, cfg: Config, followingOnly: bool, snapshot: Int64, c: Cursor)
    requires cfg.limit >= 1 && Sound(st) && MainOpen(c) && TooMany(cfg, Negatives(st.main))
    ensures MainOpen(NextCursor(st, cfg, followingOnly, snapshot, c))
  {
    MainStaysOpen(st, cfg, c, followingOnly);
    RereadMain(st, cfg, c, followingOnly, snapshot);
  }

  lemma MainIsAlwaysOpen(st: Streams, cfg: Config, followingOnly: bool, snapshot: Int64, k: nat)
    requires cfg.limit >= 1 && Sound(st) && TooMany(cfg, Negatives(st.main))
    ensures MainOpen(CursorAfter(st, cfg, followingOnly, snapshot, k))
  {
    var f := c => NextCursor(st, cfg, followingOnly, snapshot, c);
    forall c | MainOpen(c) ensures MainOpen(f(c)) { NextStaysOpen(st, cfg, followingOnly, snapshot, c); }
    IterateStaysOpen(f, k);
  }

  /** Paging never ends on any streams with so many negative main posts. */
  ghost predicate NeverEndsWith(cfg: Config, n: nat, followingOnly: bool, snapshot: Int64)
    requires cfg.limit >= 1
  {
    forall st: Streams :: Sound(st) && Negatives(st.main) == n ==> GoesOnForever(st, cfg, followingOnly, snapshot)
  }

  /** Through printed cursors, whatever the streams hold besides `n` main posts of negative score, paging
      never ends, exactly when `n` is at least `limit + 8`, or the cap does not bind and `n` is more than a page. */
  lemma NegativeScoresNeverEnd(cfg: Config, n: nat, followingOnly: bool, snapshot: Int64)
    requires cfg.limit >= 1
    ensures NeverEndsWith(cfg, n, followingOnly, snapshot) <==> TooMany(cfg, n)
  {
    if TooMany(cfg, n) {
      forall st: Streams | Sound(st) && Negatives(st.main) == n
        ensures GoesOnForever(st, cfg, followingOnly, snapshot)
      {
        forall k: nat ensures PrintedPage(st, cfg, followingOnly, snapshot, k).hasMore
                              && PrintedPage(st, cfg, followingOnly, snapshot, k).end.page != []
        {
          var c := CursorAfter(st, cfg, followingOnly, snapshot, k);
          MainIsAlwaysOpen(st, cfg, followingOnly, snapshot, k);
          MainStaysOpen(st, cfg, c, followingOnly);
        }
      }
    } else {
      OnePageIsEnough(cfg, n, followingOnly, snapshot);
    }
  }

  // ---------- when the printed cursor keeps every place ----------

  /** No post is below zero, or only the last one is, and the cap does not bind. */
  predicate AtMostLast(cfg: Config, n: nat) {
    n == 0 || (n == 1 && cfg.limit <= cfg.Cap())
  }

  lemma {:induction false} SomeNegative(posts: seq<Post>, i: nat)
    requires i < |posts| && posts[i].score < 0
    ensures Negatives(posts) >= 1
  {
    if i > 0 { SomeNegative(posts[1..], i - 1); }
  }

  lemma {:induction false} TwoNegatives(posts: seq<Post>, i: nat, j: nat)
    requires i < j < |posts| && posts[i].score < 0 && posts[j].score < 0
    ensures Negatives(posts) >= 2
  {
    if i > 0 { TwoNegatives(posts[1..], i - 1, j - 1); } else { SomeNegative(posts[1..], j - 1); }
  }

  /** In a ranked stream a post below zero has only such posts behind it. */
  lemma OnlyLastIsNegative(posts: seq<Post>, i: nat)
    requires Ranked(ByScore, posts) && i < |posts| && posts[i].score < 0
    ensures Negatives(posts) >= 1 && (Negatives(posts) == 1 ==> i == |posts| - 1)
  {
    SomeNegative(posts, i);
    if i < |posts| - 1 { TwoNegatives(posts, i, i + 1); }
  }

  /** A place behind a post below zero is the end of the stream, if there is only one such post. */
  lemma NegativePlaceIsLast(st: Streams, c: Cursor, used: nat)
    requires st.AllRanked() && 0 < used <= |RestMain(st, c)| && RestMain(st, c)[used - 1].score < 0
    ensures Negatives(st.main) >= 1 && (Negatives(st.main) == 1 ==> used == |RestMain(st, c)|)
  {
    var rest := RestMain(st, c);
    RestIsTail(ByScore, st.main, c.main);
    assert rest[used - 1] == st.main[|st.main| - |rest| + used - 1];
    OnlyLastIsNegative(st.main, |st.main| - |rest| + used - 1);
  }

  lemma FewMainAreUsed(st: Streams, cfg: Config, c: Cursor, followingOnly: bool)
    requires 1 <= cfg.limit <= cfg.Cap() && st.AllRanked() && DistinctIds(st.main)
    ensures FetchPage(st, cfg, c, followingOnly).end.used.main <= cfg.limit
  {
    RestIsDistinct(st, c);
    UsesOnlyWhatItShows(FetchPage(st, cfg, c, followingOnly).batches, cfg);
  }

  /** So no page ends behind a post below zero and leaves the stream open. */
  lemma PlacesAreNotNegative(st: Streams, cfg: Config, c: Cursor, followingOnly: bool)
    requires cfg.limit >= 1 && Sound(st) && AtMostLast(cfg, Negatives(st.main))
    ensures var next := FetchPage(st, cfg, c, followingOnly).next;
            next.main.ok && !next.main.done ==> next.main.rank >= 0
  {
    var p := FetchPage(st, cfg, c, followingOnly);
    if p.next.main.ok && !p.next.main.done && p.next.main.rank < 0 {
      NegativePlaceIsLast(st, c, p.end.used.main);
      FewMainAreUsed(st, cfg, c, followingOnly);
    }
  }

  lemma NextIsKept(st: Streams, cfg: Config, followingOnly: bool, snapshot: Int64, c: Cursor)
    requires cfg.limit >= 1 && Sound(st) && AtMostLast(cfg, Negatives(st.main))
    ensures NextCursor(st, cfg, followingOnly, snapshot, c) == FetchPage(st, cfg, c, followingOnly).next
  {
    var next := FetchPage(st, cfg, c, followingOnly).next;
    PlacesAreNotNegative(st, cfg, c, followingOnly);
    if next.main.ok && !next.main.done {
      RereadMain(st, cfg, c, followingOnly, snapshot);
    } else {
      NextSurvives(st, cfg, c, followingOnly);
      RoundTrip(next, snapshot);
    }
  }

  lemma AfterIsNext(st: Streams, cfg: Config, followingOnly: bool, snapshot: Int64, k: nat)
    requires cfg.limit >= 1
    ensures CursorAfter(st, cfg, followingOnly, snapshot, k + 1)
         == NextCursor(st, cfg, followingOnly, snapshot, CursorAfter(st, cfg, followingOnly, snapshot, k))
  {
    IterateOnce(c => NextCursor(st, cfg, followingOnly, snapshot, c), k);
  }

  lemma IterateOnce(f: Cursor -> Cursor, k: nat)
    ensures Iterate(f, k + 1) == f(Iterate(f, k))
  {
  }

  /** From any page on: the measure of paging drops with every page. */
  lemma {:induction false} EndsFrom(st: Streams, cfg: Config, followingOnly: bool, snapshot: Int64, k: nat, c: Cursor)
    returns (j: nat)
    requires cfg.limit >= 1 && Sound(st) && AtMostLast(cfg, Negatives(st.main))
    requires c == CursorAfter(st, cfg, followingOnly, snapshot, k)
    ensures !PrintedPage(st, cfg, followingOnly, snapshot, j).hasMore
    decreases LeftOf(RestMain(st, c), c.main.done), LeftOf(RestSmall(st, c), c.small.done),
              LeftOf(RestGeneral(st, c), c.gen.done)
  {
    var p := FetchPage(st, cfg, c, followingOnly);
    PageProgress(st, cfg, c, followingOnly);
    if p.hasMore {
      NextIsKept(st, cfg, followingOnly, snapshot, c);
      AfterIsNext(st, cfg, followingOnly, snapshot, k);
      j := EndsFrom(st, cfg, followingOnly, snapshot, k + 1, p.next);
    } else {
      j := k;
    }
  }

  /** What a client gets is the run of pages whose cursors are kept as values. */
  lemma {:induction false} PrintedPagesArePages(st: Streams, cfg: Config, followingOnly: bool, snapshot: Int64, k: nat)
    requires cfg.limit >= 1 && Sound(st) && AtMostLast(cfg, Negatives(st.main))
    requires k < |Pages(st, cfg, FIRST, followingOnly)|
    ensures PrintedPage(st, cfg, followingOnly, snapshot, k) == Pages(st, cfg, FIRST, followingOnly)[k]
  {
    var run := Pages(st, cfg, FIRST, followingOnly);
    PagesFollowCursor(st, cfg, FIRST, followingOnly);
    if k > 0 {
      PrintedPagesArePages(st, cfg, followingOnly, snapshot, k - 1);
      assert NextInRun(st, cfg, followingOnly, run[k - 1], run[k]);
      AfterIsNext(st, cfg, followingOnly, snapshot, k - 1);
      NextIsKept(st, cfg, followingOnly, snapshot, CursorAfter(st, cfg, followingOnly, snapshot, k - 1));
    }
  }

  // ---------- exactly when paging always ends ----------

  ghost predicate Ends(st: Streams, cfg: Config, followingOnly: bool, snapshot: Int64)
    requires cfg.limit >= 1
  {
    exists k: nat :: !PrintedPage(st, cfg, followingOnly, snapshot, k).hasMore
  }

  /** Paging ends on all streams with so many negative main posts. */
  ghost predicate AlwaysEndsWith(cfg: Config, n: nat, followingOnly: bool, snapshot: Int64)
    requires cfg.limit >= 1
  {
    forall st: Streams :: Sound(st) && Negatives(st.main) == n ==> Ends(st, cfg, followingOnly, snapshot)
  }

  /** Through printed cursors, whatever the streams hold besides `n` main posts of negative score, paging comes to
      an end, exactly when there is no such post, or there is one and the cap does not bind. */
  lemma PrintedPagingEnds(cfg: Config, n: nat, followingOnly: bool, snapshot: Int64)
    requires cfg.limit >= 1
    ensures AlwaysEndsWith(cfg, n, followingOnly, snapshot) <==> n == 0 || (n == 1 && cfg.limit <= cfg.Cap())
  {
    if AtMostLast(cfg, n) {
      forall st: Streams | Sound(st) && Negatives(st.main) == n ensures Ends(st, cfg, followingOnly, snapshot) {
        var k := EndsFrom(st, cfg, followingOnly, snapshot, 0, FIRST);
      }
    } else {
      var st := FewAreEnough(cfg, n, followingOnly, snapshot);
    }
  }

  // ---------- streams that do not end ----------

  /** Main posts by one author with the last `n` of them below zero, and no explore posts. */
  function Falling(total: nat, n: nat): Streams {
    Streams(Line('m', total - n - 1, total, false), [], [])
  }

  lemma {:induction false} CountNegatives(posts: seq<Post>, n: nat)
    requires n <= |posts| && forall k :: 0 <= k < |posts| ==> (posts[k].score < 0 <==> k >= |posts| - n)
    ensures Negatives(posts) == n
  {
    if posts != [] {
      forall k | 0 <= k < |posts| - 1 ensures posts[1..][k].score < 0 <==> posts[k + 1].score < 0 {}
      CountNegatives(posts[1..], if n == |posts| then n - 1 else n);
    }
  }

  lemma FallingIsSound(total: nat, n: nat)
    requires n <= total
    ensures Sound(Falling(total, n)) && Negatives(Falling(total, n).main) == n
    ensures forall p :: p in Falling(total, n).main ==> p.author == "a"
  {
    var posts := Line('m', total - n - 1, total, false);
    LineIsRanked('m', total - n - 1, total, false);
    LineIsDistinct('m', total - n - 1, total, false);
    CountNegatives(posts, n);
    forall p | p in posts ensures p.author == "a" && '_' !in p.id && p.id != DONE_ID && p.id != UNSET_ID {
      var k :| 0 <= k < total && posts[k] == p;
      assert p.id[0] == 'm';
    }
  }

  /** The page ends behind a post below zero and leaves the main stream open. */
  ghost predicate LosesPlace(st: Streams, cfg: Config, followingOnly: bool, c: Cursor)
    requires cfg.limit >= 1
  {
    var p := FetchPage(st, cfg, c, followingOnly);
    p.hasMore && p.next.main.ok && !p.next.main.done && p.next.main.rank < 0
  }

  ghost predicate AlwaysLosesPlace(st: Streams, cfg: Config, followingOnly: bool)
    requires cfg.limit >= 1
  {
    forall c: Cursor :: c.main == BLANK ==> LosesPlace(st, cfg, followingOnly, c)
  }

  lemma {:induction false} IterateStaysBlank(f: Cursor -> Cursor, k: nat)
    requires forall c: Cursor {:trigger f(c)} :: c.main == BLANK ==> f(c).main == BLANK
    ensures Iterate(f, k).main == BLANK
  {
    if k > 0 { IterateStaysBlank(f, k - 1); }
  }

  /** If every page that starts the main stream over loses its place, paging does not end. */
  lemma StartsOverForever(st: Streams, cfg: Config, followingOnly: bool, snapshot: Int64)
    requires cfg.limit >= 1 && Sound(st)
    requires AlwaysLosesPlace(st, cfg, followingOnly)
    ensures !Ends(st, cfg, followingOnly, snapshot)
  {
    var f := c => NextCursor(st, cfg, followingOnly, snapshot, c);
    forall c: Cursor | c.main == BLANK ensures f(c).main == BLANK {
      assert LosesPlace(st, cfg, followingOnly, c);
      RereadMain(st, cfg, c, followingOnly, snapshot);
    }
    forall k: nat ensures PrintedPage(st, cfg, followingOnly, snapshot, k).hasMore {
      IterateStaysBlank(f, k);
      assert LosesPlace(st, cfg, followingOnly, CursorAfter(st, cfg, followingOnly, snapshot, k));
    }
  }

  /** With a cap below the page size: a full fetch by one author, used up on a page of `cap` posts. */
  lemma FullFetchLosesPlace(cfg: Config, n: nat, followingOnly: bool, c: Cursor)
    requires 1 <= cfg.limit && cfg.Cap() < cfg.limit && 1 <= n <= cfg.limit + 8 && c.main == BLANK
    ensures LosesPlace(Falling(cfg.limit + 8, n), cfg, followingOnly, c)
  {
    var st := Falling(cfg.limit + 8, n);
    FallingIsSound(cfg.limit + 8, n);
    var p := FetchPage(st, cfg, c, followingOnly);
    assert p.batches == Batches(st.main, [], []);
    LoneAuthorUsesAll(p.batches, cfg);
  }

  lemma FullFetchesLosePlaces(cfg: Config, n: nat, followingOnly: bool)
    requires 1 <= cfg.limit && cfg.Cap() < cfg.limit && 1 <= n <= cfg.limit + 8
    ensures AlwaysLosesPlace(Falling(cfg.limit + 8, n), cfg, followingOnly)
  {
    forall c: Cursor | c.main == BLANK ensures LosesPlace(Falling(cfg.limit + 8, n), cfg, followingOnly, c) {
      FullFetchLosesPlace(cfg, n, followingOnly, c);
    }
  }

  /** With a cap that does not bind: the first page ends behind the first post below zero, and leaves another. */
  lemma FullPageLosesPlace(cfg: Config, n: nat, followingOnly: bool, c: Cursor)
    requires 1 <= cfg.limit <= cfg.Cap() && n >= 2 && c.main == BLANK
    ensures LosesPlace(Falling(cfg.limit + n - 1, n), cfg, followingOnly, c)
  {
    var st := Falling(cfg.limit + n - 1, n);
    FallingIsSound(cfg.limit + n - 1, n);
    var p := FetchPage(st, cfg, c, followingOnly);
    RestIsDistinct(st, c);
    assert p.batches.small == p.batches.general == [] && |p.batches.main| > cfg.limit;
    UsesOnlyWhatItShows(p.batches, cfg);
    FullPageUsesLimit(p.batches, cfg);
  }

  lemma FullPagesLosePlaces(cfg: Config, n: nat, followingOnly: bool)
    requires 1 <= cfg.limit <= cfg.Cap() && n >= 2
    ensures AlwaysLosesPlace(Falling(cfg.limit + n - 1, n), cfg, followingOnly)
  {
    forall c: Cursor | c.main == BLANK ensures LosesPlace(Falling(cfg.limit + n - 1, n), cfg, followingOnly, c) {
      FullPageLosesPlace(cfg, n, followingOnly, c);
    }
  }

  lemma FullPageUsesLimit(b: Batches, cfg: Config)
    requires 1 <= cfg.limit <= cfg.Cap() && b.small == b.general == [] && |b.main| > cfg.limit
    requires Merge(b, cfg).used.main <= cfg.limit
    ensures Merge(b, cfg).used.main == cfg.limit
  {
    MergeInvariant(b, cfg);
  }

  lemma FullFetchesGoOn(cfg: Config, n: nat, followingOnly: bool, snapshot: Int64) returns (st: Streams)
    requires 1 <= cfg.limit && cfg.Cap() < cfg.limit && 1 <= n <= cfg.limit + 8
    ensures Sound(st) && Negatives(st.main) == n && !Ends(st, cfg, followingOnly, snapshot)
  {
    st := Falling(cfg.limit + 8, n);
    FallingIsSound(cfg.limit + 8, n);
    FullFetchesLosePlaces(cfg, n, followingOnly);
    StartsOverForever(st, cfg, followingOnly, snapshot);
  }

  lemma FullPagesGoOn(cfg: Config, n: nat, followingOnly: bool, snapshot: Int64) returns (st: Streams)
    requires 1 <= cfg.limit <= cfg.Cap() && n >= 2
    ensures Sound(st) && Negatives(st.main) == n && !Ends(st, cfg, followingOnly, snapshot)
  {
    st := Falling(cfg.limit + n - 1, n);
    FallingIsSound(cfg.limit + n - 1, n);
    FullPagesLosePlaces(cfg, n, followingOnly);
    StartsOverForever(st, cfg, followingOnly, snapshot);
  }

  lemma TooManyGoOn(cfg: Config, n: nat, followingOnly: bool, snapshot: Int64) returns (st: Streams)
    requires cfg.limit >= 1 && TooMany(cfg, n)
    ensures Sound(st) && Negatives(st.main) == n && !Ends(st, cfg, followingOnly, snapshot)
  {
    st := Falling(n, n);
    FallingIsSound(n, n);
    NegativeScoresNeverEnd(cfg, n, followingOnly, snapshot);
    assert GoesOnForever(st, cfg, followingOnly, snapshot);
  }

  /** Some streams with so many negative main posts go on for ever. */
  lemma FewAreEnough(cfg: Config, n: nat, followingOnly: bool, snapshot: Int64) returns (st: Streams)
    requires cfg.limit >= 1 && !AtMostLast(cfg, n)
    ensures Sound(st) && Negatives(st.main) == n && !Ends(st, cfg, followingOnly, snapshot)
  {
    if cfg.limit <= cfg.Cap() {
      st := FullPagesGoOn(cfg, n, followingOnly, snapshot);
    } else if n <= cfg.limit + 8 {
      st := FullFetchesGoOn(cfg, n, followingOnly, snapshot);
    } else {
      st := TooManyGoOn(cfg, n, followingOnly, snapshot);
    }
  }

  // ---------- streams that end ----------

  /** Posts of one author are all used up on one page. */
  lemma LoneAuthorUsesAll(b: Batches, cfg: Config)
    requires cfg.limit >= 1 && b.small == b.general == [] && forall p :: p in b.main ==> p.author == "a"
    requires |b.main| <= cfg.limit + 8 && (|b.main| <= cfg.limit || cfg.Cap() < cfg.limit)
    ensures Merge(b, cfg).used.main == |b.main|
  {
    MergeInvariant(b, cfg);
    var end := Merge(b, cfg);
    if end.outcome.Running? {
      LoneAuthorPage(b, end);
      IdsSize(end.page);
    }
  }

  lemma LoneAuthorPage(b: Batches, st: State)
    requires Linked(b, st) && b.small == b.general == [] && forall p :: p in b.main ==> p.author == "a"
    ensures AuthorIds(st.page, "a") == Ids(st.page)
  {
    PageIsDrawn(b, st);
    assert forall p :: p in b.All() ==> p in b.main;
    assert forall p :: p in st.page ==> p.author == "a";
  }

  lemma OnePageIsEnough(cfg: Config, n: nat, followingOnly: bool, snapshot: Int64)
    requires cfg.limit >= 1 && !TooMany(cfg, n)
    ensures !NeverEndsWith(cfg, n, followingOnly, snapshot)
  {
    var st := Falling(n, n);
    FallingIsSound(n, n);
    var p := PrintedPage(st, cfg, followingOnly, snapshot, 0);
    LoneAuthorUsesAll(p.batches, cfg);
    assert !p.hasMore;
    assert !GoesOnForever(st, cfg, followingOnly, snapshot);
  }

  // ---------- what the client sees ----------

  ghost predicate AllNegative(s: seq<Post>) {
    forall p :: p in s ==> p.score < 0 && '_' !in p.id && p.id != DONE_ID
  }

  /** When all main posts are below zero and the page leaves some of them, the next page is made from the same
      main batch again. */
  lemma FirstBatchComesBack(st: Streams, cfg: Config, c: Cursor, followingOnly: bool, snapshot: Int64)
    requires st.AllRanked() && cfg.limit >= 1 && c.main == BLANK && AllNegative(st.main)
    requires PrintableItems(st.small, ByTime) && PrintableItems(st.general, ByScore)
    requires !FetchPage(st, cfg, c, followingOnly).next.main.done
    ensures var p := FetchPage(st, cfg, c, followingOnly);
            && p.hasMore && Parse(Encode(p.next, snapshot)).Some? && Reread(p.next, snapshot).main == BLANK
            && Fetched(st, Reread(p.next, snapshot), cfg.limit, followingOnly).main == p.batches.main
  {
    var p := FetchPage(st, cfg, c, followingOnly);
    FirstSlot(p.batches, cfg);
    FetchedFromStream(ByScore, st.main, c.main, MainReq(cfg.limit));
    NextSurvives(st, cfg, c, followingOnly);
    if p.next.main.ok {
      NegativeScoreStartsOver(p.next, snapshot);
    } else {
      RoundTrip(p.next, snapshot);
    }
  }
}
