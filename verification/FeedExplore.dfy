/** When an explore stream that has started loses its place, told from the page size alone, and what a
    client sees of it. */
module FeedExplore {
  import opened Basics
  import opened Posts
  import opened FeedMerge
  import opened FeedLayout
  import opened FeedCursor
  import opened FeedPaging
  import opened FeedSamples

  /** Of what was left of the stream `used` items are gone; or else the stream, though it had started and had
      something left, starts over. */
  predicate MovesOn(whole: seq<Post>, before: seq<Post>, after: seq<Post>, used: nat, keeps: bool) {
    && used <= |before|
    && if keeps || before == whole || before == [] then after == before[used..] else after == whole != before
  }

  function ExploreSlots(cfg: Config): nat
    requires cfg.limit >= 1
  {
    cfg.limit / cfg.Every()
  }

  /** A page of `limit` slots has `limit / N` explore slots: the small stream gets the first of them, the
      general stream the second. So on a plain page the small stream keeps its place exactly when there
      is one such slot, it had not started, or nothing was left, and the general stream when there are
      two; otherwise the stream starts over. */
  lemma PlacesOnPlainPages(st: Streams, cfg: Config, c: Cursor)
    requires cfg.limit >= 1 && st.AllRanked() && Plain(Fetched(st, c, cfg.limit, false), cfg)
    ensures var p, slots := FetchPage(st, cfg, c, false), ExploreSlots(cfg);
            && MovesOn(st.small, RestSmall(st, c), RestSmall(st, p.next), (slots + 1) / 2, slots >= 1)
            && MovesOn(st.general, RestGeneral(st, c), RestGeneral(st, p.next), slots / 2, slots >= 2)
  {
    var p := FetchPage(st, cfg, c, false);
    var req := ExploreReq(cfg.limit, false);
    PlainExploreUsed(p.batches, cfg);
    ExplorePlace(ByTime, st.small, Wide(c.small), p.batches.small, req, p.end.used.small, ExploreSlots(cfg) >= 1);
    ExplorePlace(ByScore, st.general, c.gen, p.batches.general, req, p.end.used.general, ExploreSlots(cfg) >= 2);
  }

  lemma PlainExploreUsed(b: Batches, cfg: Config)
    requires cfg.limit >= 1 && Plain(b, cfg)
    ensures var used, slots := Merge(b, cfg).used, ExploreSlots(cfg);
            && used.small == (slots + 1) / 2 && (slots >= 1 <==> used.small > 0)
            && used.general == slots / 2 && (slots >= 2 <==> used.general > 0)
  {
    PlainMerge(b, cfg);
    Halves(ExploreSlots(cfg));
  }

  lemma Halves(slots: nat)
    ensures (slots >= 1 <==> (slots + 1) / 2 > 0) && (slots >= 2 <==> slots / 2 > 0)
  {
  }

  lemma ExplorePlace(r: Ranking, s: seq<Post>, place: Place<int>, batch: seq<Post>, req: nat, used: nat, keeps: bool)
    requires Ranked(r, s) && batch == FirstOf(Rest(r, s, place), req) && used <= |batch| && req > 0
    requires keeps <==> used > 0
    ensures MovesOn(s, Rest(r, s, place), Rest(r, s, NextPlace(r, batch, used, MoreExplore(batch, req, used))),
                    used, keeps)
  {
    ExploreRest(r, s, place, batch, req, used);
  }

  // ---------- a post that comes back ----------

  /** Nothing is repeated and everybody has one post. */
  ghost predicate Varied(posts: seq<Post>) {
    DistinctIds(posts) && forall p :: p in posts ==> p.author == p.id
  }

  lemma VariedHasNoCrowd(posts: seq<Post>, a: string)
    requires Varied(posts)
    ensures |AuthorIds(posts, a)| <= 1
  {
    assert AuthorIds(posts, a) <= {a};
    SubsetSize(AuthorIds(posts, a), {a});
  }

  /** Stretches of three streams. */
  lemma StretchesAreVaried(x: seq<Post>, y: seq<Post>, z: seq<Post>, x': seq<Post>, y': seq<Post>, z': seq<Post>,
                           i: nat, j: nat, k: nat)
    requires Varied(x + y + z)
    requires i + |x'| <= |x| && x' == x[i..i + |x'|]
    requires j + |y'| <= |y| && y' == y[j..j + |y'|]
    requires k + |z'| <= |z| && z' == z[k..k + |z'|]
    ensures Varied(x' + y' + z')
  {
    var all, part := x + y + z, x' + y' + z';
    forall m, n | 0 <= m < n < |part| ensures part[m].id != part[n].id {
      var m', n' := Place3(|x|, |y|, |x'|, |y'|, i, j, k, m), Place3(|x|, |y|, |x'|, |y'|, i, j, k, n);
      assert part[m] == all[m'] && part[n] == all[n'] && m' < n';
    }
    forall p | p in part ensures p.author == p.id {
      var m :| 0 <= m < |part| && part[m] == p;
      assert p == all[Place3(|x|, |y|, |x'|, |y'|, i, j, k, m)];
    }
  }

  function Place3(x: nat, y: nat, x': nat, y': nat, i: nat, j: nat, k: nat, m: nat): nat {
    if m < x' then i + m else if m < x' + y' then x + j + m - x' else x + y + k + m - x' - y'
  }

  /** Streams in which every post has an author of its own. */
  const SAMPLE := Streams(Line('m', 60, 60, true), Line('s', 20, 20, true), Line('g', 20, 20, true))

  lemma SampleIsVaried()
    ensures SAMPLE.AllRanked() && Varied(SAMPLE.main + SAMPLE.small + SAMPLE.general)
  {
    LineIsRanked('m', 60, 60, true);
    LineIsRanked('s', 20, 20, true);
    LineIsRanked('g', 20, 20, true);
    LineIsDistinct('m', 60, 60, true);
    LineIsDistinct('s', 20, 20, true);
    LineIsDistinct('g', 20, 20, true);
    var all := SAMPLE.main + SAMPLE.small + SAMPLE.general;
    forall i, j | 0 <= i < j < |all| ensures all[i].id != all[j].id {
      assert i < 60 && j >= 60 ==> all[i].id[0] == 'm' && all[j].id[0] != 'm';
      assert i < 80 && j >= 80 ==> all[i].id[0] != 'g' && all[j].id[0] == 'g';
    }
  }

  lemma FetchedIsVaried(st: Streams, c: Cursor, limit: nat)
    requires st.AllRanked() && Varied(st.main + st.small + st.general)
    ensures Varied(Fetched(st, c, limit, false).All())
  {
    var b := Fetched(st, c, limit, false);
    RestIsTail(ByScore, st.main, c.main);
    RestIsTail(ByTime, st.small, Wide(c.small));
    RestIsTail(ByScore, st.general, c.gen);
    StretchesAreVaried(st.main, st.small, st.general, b.main, b.small, b.general,
                       |st.main| - |RestMain(st, c)|, |st.small| - |RestSmall(st, c)|,
                       |st.general| - |RestGeneral(st, c)|);
  }

  ghost predicate EnoughLeft(c: Cursor) {
    |RestMain(SAMPLE, c)| >= 20 && |RestSmall(SAMPLE, c)| >= 1 && |RestGeneral(SAMPLE, c)| >= 1
  }

  /** Pages of the sample are plain as long as enough is left. */
  lemma SamplePageIsPlain(c: Cursor, limit: nat)
    requires 1 <= limit <= 10 && EnoughLeft(c)
    ensures Plain(Fetched(SAMPLE, c, limit, false), Config(limit, 5, 2))
  {
    SampleIsVaried();
    FetchedIsVaried(SAMPLE, c, limit);
    var b := Fetched(SAMPLE, c, limit, false);
    forall a ensures |AuthorIds(b.All(), a)| <= 2 { VariedHasNoCrowd(b.All(), a); }
  }

  /** How a page of the sample moves on. */
  lemma SampleMovesOn(c: Cursor, limit: nat)
    requires 1 <= limit <= 10 && EnoughLeft(c)
    ensures PageMovesOn(SAMPLE, Config(limit, 5, 2), c)
  {
    SampleIsVaried();
    SamplePageIsPlain(c, limit);
    PlainPageMovesOn(SAMPLE, Config(limit, 5, 2), c);
  }

  predicate PageMovesOn(st: Streams, cfg: Config, c: Cursor)
    requires cfg.limit >= 1
  {
    var next, slots := FetchPage(st, cfg, c, false).next, ExploreSlots(cfg);
    && |RestMain(st, next)| >= |RestMain(st, c)| - cfg.limit
    && MovesOn(st.small, RestSmall(st, c), RestSmall(st, next), (slots + 1) / 2, slots >= 1)
    && MovesOn(st.general, RestGeneral(st, c), RestGeneral(st, next), slots / 2, slots >= 2)
  }

  lemma PlainPageMovesOn(st: Streams, cfg: Config, c: Cursor)
    requires cfg.limit >= 1 && st.AllRanked() && Plain(Fetched(st, c, cfg.limit, false), cfg)
    ensures PageMovesOn(st, cfg, c)
  {
    PlacesOnPlainPages(st, cfg, c);
    MainMovesOn(st, cfg, c);
  }

  lemma MainMovesOn(st: Streams, cfg: Config, c: Cursor)
    requires cfg.limit >= 1 && st.AllRanked() && Plain(Fetched(st, c, cfg.limit, false), cfg)
    ensures |RestMain(st, FetchPage(st, cfg, c, false).next)| >= |RestMain(st, c)| - cfg.limit
  {
    MainStep(st, cfg, c, false);
    PlainMerge(Fetched(st, c, cfg.limit, false), cfg);
    SlotBound(cfg.Every(), cfg.limit);
  }

  /** A page of ten shows the next general post. */
  lemma TenShowsGeneral(c: Cursor)
    requires EnoughLeft(c)
    ensures RestGeneral(SAMPLE, c)[0].id in Ids(FetchPage(SAMPLE, Config(10, 5, 2), c, false).end.page)
  {
    SamplePageIsPlain(c, 10);
    TenthSlot(Fetched(SAMPLE, c, 10, false), Config(10, 5, 2));
  }

  /** The tenth slot shows the first general post. */
  lemma TenthSlot(b: Batches, cfg: Config)
    requires Plain(b, cfg) && cfg == Config(10, 5, 2)
    ensures |b.general| > 0 && b.general[0].id in Ids(Merge(b, cfg).page)
  {
    PageLayout(b, cfg);
    var page := Merge(b, cfg).page;
    assert SlotSource(5, 9) == Pick(General, 0);
    assert page[9] == Tagged(b.general[0], General);
    assert page[9] in page;
  }

  /** A client that asks for a page of 10, then one of 5 to 9, then one of 10 again meets the first post
      of the general stream on the first page and on the third. */
  lemma ExplorePostComesBack(limit: nat)
    requires 5 <= limit <= 9
    ensures SAMPLE.AllRanked()
    ensures var p1 := FetchPage(SAMPLE, Config(10, 5, 2), FIRST, false);
            var p2 := FetchPage(SAMPLE, Config(limit, 5, 2), p1.next, false);
            var p3 := FetchPage(SAMPLE, Config(10, 5, 2), p2.next, false);
            && p1.hasMore && p2.hasMore
            && SAMPLE.general[0].id in Ids(p1.end.page) && SAMPLE.general[0].id in Ids(p3.end.page)
  {
    SampleIsVaried();
    var p1 := FetchPage(SAMPLE, Config(10, 5, 2), FIRST, false);
    var p2 := FetchPage(SAMPLE, Config(limit, 5, 2), p1.next, false);
    assert ExploreSlots(Config(10, 5, 2)) == 2 && ExploreSlots(Config(limit, 5, 2)) == 1;
    SampleMovesOn(FIRST, 10);
    TenShowsGeneral(FIRST);
    SampleMovesOn(p1.next, limit);
    TenShowsGeneral(p2.next);
    PageProgress(SAMPLE, Config(10, 5, 2), FIRST, false);
    PageProgress(SAMPLE, Config(limit, 5, 2), p1.next, false);
  }
}
