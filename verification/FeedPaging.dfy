/** `FetchPersonalized`: one page after another over three ranked streams, with a cursor that
    remembers where each stream stands. A stream is the fixed, strictly ordered result of its
    query at the snapshot time. */
module FeedPaging {
  import opened Basics
  import opened Ordering
  import opened Posts
  import opened FeedMerge
  import opened FeedMergeProofs
  import opened FeedCursor
  import FeedRerank
  import FeedShown

  // ---------- ranked streams and the queries on them ----------

  /** Main and general explore: highest score first. Small explore: oldest first. */
  datatype Ranking = ByScore | ByTime

  function RankOf(r: Ranking, p: Post): int {
    match r case ByScore => p.score case ByTime => p.createdNano
  }

  /** The post comes after the key `(rank, id)`: the condition of the query. */
  predicate Behind(r: Ranking, rank: int, id: string, p: Post) {
    match r
    case ByScore => p.score < rank || (p.score == rank && Less(p.id, id))
    case ByTime => p.createdNano > rank || (p.createdNano == rank && Less(id, p.id))
  }

  predicate Ranked(r: Ranking, s: seq<Post>) {
    forall i, j :: 0 <= i < j < |s| ==> Behind(r, RankOf(r, s[i]), s[i].id, s[j])
  }

  /** The main and the general stream have the highest score first and, of equal scores, the largest id; the small
      stream has the oldest post first and, of equal times, the smallest id. */
  lemma RankedMeans(s: seq<Post>)
    ensures Ranked(ByScore, s) <==> forall i, j :: 0 <= i < j < |s| ==>
              s[i].score > s[j].score || (s[i].score == s[j].score && Less(s[j].id, s[i].id))
    ensures Ranked(ByTime, s) <==> forall i, j :: 0 <= i < j < |s| ==>
              s[i].createdNano < s[j].createdNano || (s[i].createdNano == s[j].createdNano && Less(s[i].id, s[j].id))
  {
  }

  function AllBehind(r: Ranking, s: seq<Post>, rank: int, id: string): seq<Post> {
    if s == [] then []
    else if Behind(r, rank, id, s[0]) then [s[0]] + AllBehind(r, s[1..], rank, id)
    else AllBehind(r, s[1..], rank, id)
  }

  /** What a stream still has to give to a cursor. */
  function Rest(r: Ranking, s: seq<Post>, place: Place<int>): seq<Post> {
    if place.done then [] else if place.ok then AllBehind(r, s, place.rank, place.id) else s
  }

  function Wide(place: Place<Int64>): Place<int> {
    Place(place.rank, place.id, place.ok, place.done)
  }

  function FirstOf(s: seq<Post>, n: nat): (t: seq<Post>)
    ensures |t| <= n && t <= s && (|t| < n ==> t == s)
  {
    if |s| <= n then s else s[..n]
  }

  lemma BehindIsTransitive(r: Ranking, rank: int, id: string, p: Post, q: Post)
    requires Behind(r, rank, id, p) && Behind(r, RankOf(r, p), p.id, q)
    ensures Behind(r, rank, id, q)
  {
    if r.ByScore? && p.score == rank && q.score == rank { LessTransitive(q.id, p.id, id); }
    if r.ByTime? && p.createdNano == rank && q.createdNano == rank { LessTransitive(id, p.id, q.id); }
  }

  lemma BehindIsStrict(r: Ranking, p: Post, q: Post)
    requires p == q || Behind(r, RankOf(r, q), q.id, p)
    ensures !Behind(r, RankOf(r, p), p.id, q)
  {
    LessTrichotomy(p.id, q.id);
  }

  /** The query answers with a tail of the stream, whatever the key. */
  lemma {:induction false} BehindIsTail(r: Ranking, s: seq<Post>, rank: int, id: string)
    requires Ranked(r, s)
    ensures var t := AllBehind(r, s, rank, id); |t| <= |s| && t == s[|s| - |t|..]
  {
    if s != [] {
      if Behind(r, rank, id, s[0]) {
        AllAreBehind(r, s[1..], rank, id, s[0]);
        assert AllBehind(r, s, rank, id) == s;
      } else {
        BehindIsTail(r, s[1..], rank, id);
        var t := AllBehind(r, s[1..], rank, id);
        assert s[1..][|s| - 1 - |t|..] == s[|s| - |t|..];
      }
    }
  }

  lemma {:induction false} AllAreBehind(r: Ranking, s: seq<Post>, rank: int, id: string, p: Post)
    requires Behind(r, rank, id, p) && forall j :: 0 <= j < |s| ==> Behind(r, RankOf(r, p), p.id, s[j])
    ensures AllBehind(r, s, rank, id) == s
  {
    if s != [] {
      BehindIsTransitive(r, rank, id, p, s[0]);
      AllAreBehind(r, s[1..], rank, id, p);
    }
  }

  /** Asking for what comes after item `k` gives the items from `k + 1` on. */
  lemma {:induction false} BehindItem(r: Ranking, s: seq<Post>, k: nat)
    requires Ranked(r, s) && k < |s|
    ensures AllBehind(r, s, RankOf(r, s[k]), s[k].id) == s[k + 1..]
  {
    BehindIsStrict(r, s[k], s[0]);
    if k == 0 {
      AllAreBehindFirst(r, s);
    } else {
      BehindItem(r, s[1..], k - 1);
    }
  }

  lemma AllAreBehindFirst(r: Ranking, s: seq<Post>)
    requires Ranked(r, s) && s != []
    ensures AllBehind(r, s[1..], RankOf(r, s[0]), s[0].id) == s[1..]
  {
    if |s| > 1 {
      forall j | 0 <= j < |s| - 2 ensures Behind(r, RankOf(r, s[1]), s[1].id, s[2..][j]) {}
      AllAreBehind(r, s[2..], RankOf(r, s[0]), s[0].id, s[1]);
    }
  }

  // ---------- one page ----------

  datatype Streams = Streams(main: seq<Post>, small: seq<Post>, general: seq<Post>) {
    ghost predicate AllRanked() {
      Ranked(ByScore, main) && Ranked(ByTime, small) && Ranked(ByScore, general)
    }
  }

  function RestMain(st: Streams, c: Cursor): seq<Post> { Rest(ByScore, st.main, c.main) }
  function RestSmall(st: Streams, c: Cursor): seq<Post> { Rest(ByTime, st.small, Wide(c.small)) }
  function RestGeneral(st: Streams, c: Cursor): seq<Post> { Rest(ByScore, st.general, c.gen) }

  function MainReq(limit: nat): nat { limit + 8 }

  /** The tab that shows followed authors only has no explore streams. */
  function ExploreReq(limit: nat, followingOnly: bool): nat {
    if followingOnly then 0 else limit / 2 + 4
  }

  function Fetched(st: Streams, c: Cursor, limit: nat, followingOnly: bool): Batches {
    Batches(FirstOf(RestMain(st, c), MainReq(limit)),
            FirstOf(RestSmall(st, c), ExploreReq(limit, followingOnly)),
            FirstOf(RestGeneral(st, c), ExploreReq(limit, followingOnly)))
  }

  /** The place after a page on which `used` items of the batch were used up. */
  function NextPlace(r: Ranking, batch: seq<Post>, used: nat, more: bool): Place<int>
    requires used <= |batch|
  {
    if more && used > 0 then Place(RankOf(r, batch[used - 1]), batch[used - 1].id, true, false)
    else if !more then Place(0, "", false, true)
    else BLANK
  }

  function NextNano(batch: seq<Post>, used: nat, more: bool): Place<Int64>
    requires used <= |batch|
  {
    if more && used > 0 then Place(batch[used - 1].createdNano, batch[used - 1].id, true, false)
    else if !more then Place(0, "", false, true)
    else BLANK_NANO
  }

  datatype PageResult = PageResult(batches: Batches, end: State, next: Cursor, hasMore: bool)

  function FetchPage(st: Streams, cfg: Config, c: Cursor, followingOnly: bool): (r: PageResult)
    requires cfg.limit >= 1
    ensures r.end.used.Within(r.batches)
  {
    var b := Fetched(st, c, cfg.limit, followingOnly);
    var end := Merge(b, cfg);
    MergeInvariant(b, cfg);
    var req := ExploreReq(cfg.limit, followingOnly);
    var moreM := MoreMain(b, MainReq(cfg.limit), end.used.main);
    var moreS := MoreExplore(b.small, req, end.used.small);
    var moreG := MoreExplore(b.general, req, end.used.general);
    PageResult(b, end,
               Cursor(NextPlace(ByScore, b.main, end.used.main, moreM), NextNano(b.small, end.used.small, moreS),
                      NextPlace(ByScore, b.general, end.used.general, moreG)),
               moreM || moreS || moreG)
  }

  // ---------- every page uses something of the first stream that is not done ----------

  lemma {:induction false} RunGrows(b: Batches, cfg: Config, st: State)
    requires st.used.Within(b)
    ensures var end := Run(b, cfg, st);
            && st.used.main <= end.used.main && st.used.small <= end.used.small && st.used.general <= end.used.general
            && |st.page| <= |end.page|
    decreases Remaining(b, st)
  {
    if !Finished(cfg, st) {
      StepProgress(b, cfg, st);
      RunGrows(b, cfg, Step(b, cfg, st));
    }
  }

  predicate AtStart(st: State) {
    st.page == [] && st.used == Counts(0, 0, 0) && st.outcome.Running?
  }

  lemma FirstRound(b: Batches, cfg: Config, st: State)
    requires AtStart(st)
    ensures var next := Step(b, cfg, st);
            && (b.main != [] ==> next.used.main == 1)
            && (b.main == [] && b.small != [] ==> next.used.small == 1)
            && (b.main == b.small == [] && b.general != [] ==> next.used.general == 1)
            && (b.All() != [] ==> |next.page| == 1)
  {
    assert PassSeenAll(b, [], Counts(0, 0, 0)) == Counts(0, 0, 0);
  }

  lemma RunOnce(b: Batches, cfg: Config, st: State)
    requires st.used.Within(b) && !Finished(cfg, st)
    ensures Step(b, cfg, st).used.Within(b) && Run(b, cfg, st) == Run(b, cfg, Step(b, cfg, st))
  {
    StepProgress(b, cfg, st);
  }

  lemma FirstState(b: Batches, cfg: Config, st: State) returns (first: State)
    requires cfg.limit >= 1 && AtStart(st)
    ensures first.used.Within(b) && Run(b, cfg, st) == Run(b, cfg, first)
    ensures b.main != [] ==> first.used.main == 1
    ensures b.main == [] && b.small != [] ==> first.used.small == 1
    ensures b.main == b.small == [] && b.general != [] ==> first.used.general == 1
    ensures b.All() != [] ==> |first.page| == 1
  {
    first := Step(b, cfg, st);
    RunOnce(b, cfg, st);
    FirstRound(b, cfg, st);
  }

  /** The first slot goes to the first stream that has anything. */
  lemma FirstSlot(b: Batches, cfg: Config)
    requires cfg.limit >= 1
    ensures var end := Merge(b, cfg);
            && (b.main != [] ==> end.used.main >= 1)
            && (b.main == [] && b.small != [] ==> end.used.small >= 1)
            && (b.main == b.small == [] && b.general != [] ==> end.used.general >= 1)
            && (b.All() != [] ==> end.page != [])
  {
    var first := FirstState(b, cfg, START);
    RunGrows(b, cfg, first);
  }

  function LeftOf(rest: seq<Post>, done: bool): nat { if done then 0 else |rest| + 1 }

  /** Generic step of one stream: what is left shrinks by what was used, or the stream is done. */
  lemma NextRest(r: Ranking, s: seq<Post>, place: Place<int>, batch: seq<Post>, req: nat, used: nat, more: bool)
    requires Ranked(r, s) && batch == FirstOf(Rest(r, s, place), req) && used <= |batch|
    requires used > 0 && more
    ensures Rest(r, s, NextPlace(r, batch, used, more)) == Rest(r, s, place)[used..]
  {
    var rest := Rest(r, s, place);
    RestIsTail(r, s, place);
    var k := |s| - |rest| + used - 1;
    assert batch[used - 1] == rest[used - 1] == s[k];
    BehindItem(r, s, k);
    assert s[k + 1..] == s[|s| - |rest|..][used..];
  }

  lemma RestIsTail(r: Ranking, s: seq<Post>, place: Place<int>)
    requires Ranked(r, s)
    ensures var t := Rest(r, s, place); |t| <= |s| && t == s[|s| - |t|..]
  {
    if place.ok && !place.done { BehindIsTail(r, s, place.rank, place.id); }
  }

  lemma MainStep(st: Streams, cfg: Config, c: Cursor, followingOnly: bool)
    requires st.AllRanked() && cfg.limit >= 1
    ensures var p := FetchPage(st, cfg, c, followingOnly);
            && p.end.used.main <= |RestMain(st, c)|
            && RestMain(st, p.next) == RestMain(st, c)[p.end.used.main..]
            && p.batches.main[..p.end.used.main] == RestMain(st, c)[..p.end.used.main]
            && (!c.main.done ==> LeftOf(RestMain(st, p.next), p.next.main.done) < LeftOf(RestMain(st, c), false))
            && (c.main.done ==> p.next.main.done)
            && (p.next.main.done ==> p.end.used.main == |RestMain(st, c)|)
  {
    var p := FetchPage(st, cfg, c, followingOnly);
    var b, used := p.batches, p.end.used.main;
    MergeInvariant(b, cfg);
    FirstSlot(b, cfg);
    if MoreMain(b, MainReq(cfg.limit), used) {
      NextRest(ByScore, st.main, c.main, b.main, MainReq(cfg.limit), used, true);
    }
  }

  lemma SmallStep(st: Streams, cfg: Config, c: Cursor, followingOnly: bool)
    requires st.AllRanked() && cfg.limit >= 1
    ensures var p := FetchPage(st, cfg, c, followingOnly);
            && (c.main.done && !c.small.done ==>
                  LeftOf(RestSmall(st, p.next), p.next.small.done) < LeftOf(RestSmall(st, c), false))
            && (c.small.done ==> p.next.small.done)
  {
    var p := FetchPage(st, cfg, c, followingOnly);
    var b, used, req := p.batches, p.end.used.small, ExploreReq(cfg.limit, followingOnly);
    FirstSlot(b, cfg);
    if MoreExplore(b.small, req, used) && used > 0 {
      NextRest(ByTime, st.small, Wide(c.small), b.small, req, used, true);
    }
  }

  lemma GeneralStep(st: Streams, cfg: Config, c: Cursor, followingOnly: bool)
    requires st.AllRanked() && cfg.limit >= 1
    ensures var p := FetchPage(st, cfg, c, followingOnly);
            && (c.main.done && c.small.done && !c.gen.done ==>
                  LeftOf(RestGeneral(st, p.next), p.next.gen.done) < LeftOf(RestGeneral(st, c), false))
            && (c.gen.done ==> p.next.gen.done)
  {
    var p := FetchPage(st, cfg, c, followingOnly);
    var b, used, req := p.batches, p.end.used.general, ExploreReq(cfg.limit, followingOnly);
    FirstSlot(b, cfg);
    if MoreExplore(b.general, req, used) && used > 0 {
      NextRest(ByScore, st.general, c.gen, b.general, req, used, true);
    }
  }

  // ---------- paging ends ----------

  predicate AllDone(c: Cursor) { c.main.done && c.small.done && c.gen.done }

  ghost predicate Smaller(m: nat, s: nat, g: nat, m': nat, s': nat, g': nat) {
    m < m' || (m == m' && (s < s' || (s == s' && g < g')))
  }

  /** A page moves the cursor forward: the first stream that is not done loses something, even if a
      later explore stream starts over; done streams stay done; there is more exactly when some stream
      is not done; and a page without posts is the last. */
  lemma PageProgress(st: Streams, cfg: Config, c: Cursor, followingOnly: bool)
    requires st.AllRanked() && cfg.limit >= 1
    ensures var p := FetchPage(st, cfg, c, followingOnly);
            && (!AllDone(c) ==> Smaller(
                  LeftOf(RestMain(st, p.next), p.next.main.done), LeftOf(RestSmall(st, p.next), p.next.small.done),
                  LeftOf(RestGeneral(st, p.next), p.next.gen.done),
                  LeftOf(RestMain(st, c), c.main.done), LeftOf(RestSmall(st, c), c.small.done),
                  LeftOf(RestGeneral(st, c), c.gen.done)))
            && (c.main.done ==> p.next.main.done) && (c.small.done ==> p.next.small.done)
            && (c.gen.done ==> p.next.gen.done)
            && p.hasMore == !AllDone(p.next)
            && (p.end.page == [] ==> !p.hasMore)
  {
    MainStep(st, cfg, c, followingOnly);
    SmallStep(st, cfg, c, followingOnly);
    GeneralStep(st, cfg, c, followingOnly);
    FirstSlot(FetchPage(st, cfg, c, followingOnly).batches, cfg);
  }

  /** The pages a client gets by following the cursor until there is no more: the recursion ends. */
  ghost function Pages(st: Streams, cfg: Config, c: Cursor, followingOnly: bool): (run: seq<PageResult>)
    requires st.AllRanked() && cfg.limit >= 1
    ensures run != []
    decreases LeftOf(RestMain(st, c), c.main.done), LeftOf(RestSmall(st, c), c.small.done),
              LeftOf(RestGeneral(st, c), c.gen.done)
  {
    var p := FetchPage(st, cfg, c, followingOnly);
    PageProgress(st, cfg, c, followingOnly);
    if p.hasMore then [p] + Pages(st, cfg, p.next, followingOnly) else [p]
  }

  ghost predicate NextInRun(st: Streams, cfg: Config, followingOnly: bool, p: PageResult, q: PageResult)
    requires cfg.limit >= 1
  {
    p.hasMore && q == FetchPage(st, cfg, p.next, followingOnly)
  }

  ghost predicate Chain(st: Streams, cfg: Config, followingOnly: bool, run: seq<PageResult>)
    requires cfg.limit >= 1
  {
    forall i :: 0 <= i < |run| - 1 ==> NextInRun(st, cfg, followingOnly, run[i], run[i + 1])
  }

  lemma ChainCons(st: Streams, cfg: Config, followingOnly: bool, p: PageResult, rest: seq<PageResult>)
    requires cfg.limit >= 1 && rest != [] && Chain(st, cfg, followingOnly, rest)
    requires NextInRun(st, cfg, followingOnly, p, rest[0])
    ensures Chain(st, cfg, followingOnly, [p] + rest)
  {
    var run := [p] + rest;
    forall i | 0 <= i < |run| - 1 ensures NextInRun(st, cfg, followingOnly, run[i], run[i + 1]) {
      if i > 0 { assert NextInRun(st, cfg, followingOnly, rest[i - 1], rest[i]); }
    }
  }

  /** The run is what following the cursor means: each page is fetched with the cursor of the page
      before it, and the last page, and only that one, says that there is no more. */
  lemma {:induction false} PagesFollowCursor(st: Streams, cfg: Config, c: Cursor, followingOnly: bool)
    requires st.AllRanked() && cfg.limit >= 1
    ensures var run := Pages(st, cfg, c, followingOnly);
            && run[0] == FetchPage(st, cfg, c, followingOnly) && !run[|run| - 1].hasMore
            && AllDone(run[|run| - 1].next)
            && Chain(st, cfg, followingOnly, run)
    decreases LeftOf(RestMain(st, c), c.main.done), LeftOf(RestSmall(st, c), c.small.done),
              LeftOf(RestGeneral(st, c), c.gen.done)
  {
    var p, run := FetchPage(st, cfg, c, followingOnly), Pages(st, cfg, c, followingOnly);
    PageProgress(st, cfg, c, followingOnly);
    if p.hasMore {
      var rest := Pages(st, cfg, p.next, followingOnly);
      PagesFollowCursor(st, cfg, p.next, followingOnly);
      ChainCons(st, cfg, followingOnly, p, rest);
    }
  }

  // ---------- the pages partition the main stream ----------

  /** The items of the main stream that a page used up. */
  function MainTaken(p: PageResult): seq<Post> {
    FirstOf(p.batches.main, p.end.used.main)
  }

  ghost function Concatenated(run: seq<PageResult>): seq<Post> {
    if run == [] then [] else MainTaken(run[0]) + Concatenated(run[1..])
  }

  lemma MainTakenIsHead(st: Streams, cfg: Config, c: Cursor, followingOnly: bool)
    requires st.AllRanked() && cfg.limit >= 1
    ensures var p := FetchPage(st, cfg, c, followingOnly);
            && MainTaken(p) + RestMain(st, p.next) == RestMain(st, c)
            && (!p.hasMore ==> RestMain(st, p.next) == [])
  {
    var p := FetchPage(st, cfg, c, followingOnly);
    var rest, used := RestMain(st, c), p.end.used.main;
    MainStep(st, cfg, c, followingOnly);
    assert MainTaken(p) == rest[..used];
  }

  lemma {:induction false} PagesSplitRest(st: Streams, cfg: Config, c: Cursor, followingOnly: bool)
    requires st.AllRanked() && cfg.limit >= 1
    ensures Concatenated(Pages(st, cfg, c, followingOnly)) == RestMain(st, c)
    decreases LeftOf(RestMain(st, c), c.main.done), LeftOf(RestSmall(st, c), c.small.done),
              LeftOf(RestGeneral(st, c), c.gen.done)
  {
    var p, run := FetchPage(st, cfg, c, followingOnly), Pages(st, cfg, c, followingOnly);
    MainTakenIsHead(st, cfg, c, followingOnly);
    PageProgress(st, cfg, c, followingOnly);
    if p.hasMore {
      PagesSplitRest(st, cfg, p.next, followingOnly);
      assert run[1..] == Pages(st, cfg, p.next, followingOnly);
    } else {
      assert run[1..] == [];
    }
  }

  /** Following the cursor from the start, what the pages use up of the main stream is, put together,
      exactly the main stream: every item once, in order. */
  lemma MainIsPartitioned(st: Streams, cfg: Config, followingOnly: bool)
    requires st.AllRanked() && cfg.limit >= 1
    ensures Concatenated(Pages(st, cfg, FIRST, followingOnly)) == st.main
  {
    PagesSplitRest(st, cfg, FIRST, followingOnly);
  }

  lemma {:induction false} TakenOnSomePage(run: seq<PageResult>, post: Post) returns (k: nat)
    requires post in Concatenated(run)
    ensures k < |run| && post in MainTaken(run[k])
  {
    if post in MainTaken(run[0]) {
      k := 0;
    } else {
      var k' := TakenOnSomePage(run[1..], post);
      k := k' + 1;
    }
  }

  lemma {:induction false} PagesComeFromMerges(st: Streams, cfg: Config, c: Cursor, followingOnly: bool)
    requires st.AllRanked() && cfg.limit >= 1
    ensures forall p :: p in Pages(st, cfg, c, followingOnly) ==> p.end == Merge(p.batches, cfg)
    decreases LeftOf(RestMain(st, c), c.main.done), LeftOf(RestSmall(st, c), c.small.done),
              LeftOf(RestGeneral(st, c), c.gen.done)
  {
    var p := FetchPage(st, cfg, c, followingOnly);
    PageProgress(st, cfg, c, followingOnly);
    if p.hasMore { PagesComeFromMerges(st, cfg, p.next, followingOnly); }
  }

  /** End to end: over a whole paging run, every post of the main stream is shown on some page, or its
      author fills the cap on the page that used it up. */
  lemma EveryMainPostIsAnswered(st: Streams, cfg: Config, followingOnly: bool, post: Post) returns (k: nat)
    requires st.AllRanked() && cfg.limit >= 1 && post in st.main
    ensures var run := Pages(st, cfg, FIRST, followingOnly);
            && k < |run|
            && (post.id in Ids(run[k].end.page) || |AuthorIds(run[k].end.page, post.author)| == cfg.Cap())
  {
    var run := Pages(st, cfg, FIRST, followingOnly);
    MainIsPartitioned(st, cfg, followingOnly);
    PagesComeFromMerges(st, cfg, FIRST, followingOnly);
    k := TakenOnSomePage(run, post);
    var p := run[k];
    assert p in run;
    NoSilentLoss(p.batches, cfg);
    MergeInvariant(p.batches, cfg);
    var i :| 0 <= i < p.end.used.main && p.batches.Of(Main)[i] == post;
    assert i < p.end.used.Of(Main);
  }

  /** What a page is merged from, and when a stream is done: exactly when the page used up all that it had left,
      and that was less than the page had asked for. */
  lemma DoneExactly(st: Streams, cfg: Config, c: Cursor, followingOnly: bool)
    requires st.AllRanked() && cfg.limit >= 1
    ensures var p := FetchPage(st, cfg, c, followingOnly);
            var main, small, general := |RestMain(st, c)|, |RestSmall(st, c)|, |RestGeneral(st, c)|;
            && (p.next.main.done <==> p.end.used.main == main < cfg.limit + 8)
            && (p.next.small.done <==> followingOnly || p.end.used.small == small < cfg.limit / 2 + 4)
            && (p.next.gen.done <==> followingOnly || p.end.used.general == general < cfg.limit / 2 + 4)
            && p.batches.main <= RestMain(st, c) && p.batches.small <= RestSmall(st, c)
            && p.batches.general <= RestGeneral(st, c)
            && (|p.batches.main| == main || |p.batches.main| == cfg.limit + 8)
            && (followingOnly ==> p.batches.small == p.batches.general == [])
            && (!followingOnly ==> |p.batches.small| == small || |p.batches.small| == cfg.limit / 2 + 4)
            && (!followingOnly ==> |p.batches.general| == general || |p.batches.general| == cfg.limit / 2 + 4)
  {
    MergeInvariant(FetchPage(st, cfg, c, followingOnly).batches, cfg);
  }

  // ---------- explore streams may lose their place ----------

  /** After a page, the explore streams stand behind what was used of them, or back at the start. They
      keep their place exactly when the page used some of them, they had not started, or had nothing left. */
  lemma ExploreKeepsPlace(st: Streams, cfg: Config, c: Cursor)
    requires st.AllRanked() && cfg.limit >= 1
    ensures var p := FetchPage(st, cfg, c, false);
            && (RestSmall(st, p.next) == RestSmall(st, c)[p.end.used.small..] <==>
                  p.end.used.small > 0 || RestSmall(st, c) == st.small || RestSmall(st, c) == [])
            && (RestSmall(st, p.next) == RestSmall(st, c)[p.end.used.small..] || RestSmall(st, p.next) == st.small)
            && (RestGeneral(st, p.next) == RestGeneral(st, c)[p.end.used.general..] <==>
                  p.end.used.general > 0 || RestGeneral(st, c) == st.general || RestGeneral(st, c) == [])
            && (RestGeneral(st, p.next) == RestGeneral(st, c)[p.end.used.general..]
                || RestGeneral(st, p.next) == st.general)
  {
    var p := FetchPage(st, cfg, c, false);
    var b, req := p.batches, ExploreReq(cfg.limit, false);
    ExploreRest(ByTime, st.small, Wide(c.small), b.small, req, p.end.used.small);
    ExploreRest(ByScore, st.general, c.gen, b.general, req, p.end.used.general);
  }

  lemma ExploreRest(r: Ranking, s: seq<Post>, place: Place<int>, batch: seq<Post>, req: nat, used: nat)
    requires Ranked(r, s) && batch == FirstOf(Rest(r, s, place), req) && used <= |batch| && req > 0
    ensures Rest(r, s, NextPlace(r, batch, used, MoreExplore(batch, req, used))) == Rest(r, s, place)[used..] <==>
              used > 0 || Rest(r, s, place) == s || Rest(r, s, place) == []
  {
    RestIsTail(r, s, place);
    var rest := Rest(r, s, place);
    if MoreExplore(batch, req, used) {
      if used > 0 { NextRest(r, s, place, batch, req, used, true); }
      else { assert rest[0..] == rest; }
    } else {
      assert used == |rest|;
    }
  }

  // ---------- paging through printed cursors ----------

  predicate PrintableItems(s: seq<Post>, r: Ranking) {
    forall p :: p in s ==> Printable(RankOf(r, p), p.id) && '_' !in p.id
  }

  lemma FetchedFromStream(r: Ranking, s: seq<Post>, place: Place<int>, req: nat)
    requires Ranked(r, s)
    ensures forall p :: p in FirstOf(Rest(r, s, place), req) ==> p in s
  {
    RestIsTail(r, s, place);
  }

  lemma NextSurvives(st: Streams, cfg: Config, c: Cursor, followingOnly: bool)
    requires st.AllRanked() && cfg.limit >= 1
    requires PrintableItems(st.small, ByTime) && PrintableItems(st.general, ByScore)
    ensures var next := FetchPage(st, cfg, c, followingOnly).next;
            && NormalCursor(next) == next && Survives(next.(main := BLANK))
            && (PrintableItems(st.main, ByScore) ==> Survives(next))
  {
    var req := ExploreReq(cfg.limit, followingOnly);
    FetchedFromStream(ByScore, st.main, c.main, MainReq(cfg.limit));
    FetchedFromStream(ByTime, st.small, Wide(c.small), req);
    FetchedFromStream(ByScore, st.general, c.gen, req);
  }

  /** When no score or time is negative and no id holds a marker, the printed cursor brings the client to
      the same next page as the cursor itself. */
  lemma PrintedCursorIsEnough(st: Streams, cfg: Config, c: Cursor, followingOnly: bool, snapshot: Int64)
    requires st.AllRanked() && cfg.limit >= 1
    requires PrintableItems(st.main, ByScore) && PrintableItems(st.small, ByTime) && PrintableItems(st.general, ByScore)
    ensures var next := FetchPage(st, cfg, c, followingOnly).next;
            Parse(Encode(next, snapshot)) == Some((next, snapshot))
  {
    NextSurvives(st, cfg, c, followingOnly);
    RoundTrip(FetchPage(st, cfg, c, followingOnly).next, snapshot);
  }

  // ---------- the whole pipeline ----------

  datatype RankConfig = RankConfig(exploreEveryN: int, exploreTopSlots: int, maxPerAuthor: int, spreadWindow: int,
                                   heroRotationSlots: int)

  lemma RestOfTail(r: Ranking, s: seq<Post>, place: Place<int>)
    requires s != [] && !place.done
    ensures Rest(r, s, place)
         == (if !place.ok || Behind(r, place.rank, place.id, s[0]) then [s[0]] else []) + Rest(r, s[1..], place)
  {}

  /** The query behind a stream: what follows the cursor, at most `limit` items. */
  method FetchStream(r: Ranking, stream: seq<Post>, place: Place<int>, limit: nat) returns (posts: seq<Post>)
    requires !place.done
    ensures posts == FirstOf(Rest(r, stream, place), limit)
  {
    posts := [];
    ghost var all := Rest(r, stream, place);
    var i := 0;
    while i < |stream| && |posts| < limit
      invariant i <= |stream| && |posts| <= limit
      invariant all == posts + Rest(r, stream[i..], place)
    {
      RestFrom(r, stream, i, place, posts);
      if !place.ok || Behind(r, place.rank, place.id, stream[i]) { posts := posts + [stream[i]]; }
      i := i + 1;
    }
    FetchEnds(r, stream, i, place, limit, posts);
  }

  /** The next row of the query is either the next post behind the cursor or not behind it. */
  lemma RestFrom(r: Ranking, stream: seq<Post>, i: nat, place: Place<int>, posts: seq<Post>)
    requires i < |stream| && !place.done
    ensures posts + Rest(r, stream[i..], place)
         == (if !place.ok || Behind(r, place.rank, place.id, stream[i]) then posts + [stream[i]] else posts)
            + Rest(r, stream[i + 1..], place)
  {
    var tail := stream[i..];
    assert tail[0] == stream[i] && tail[1..] == stream[i + 1..];
    RestOfTail(r, tail, place);
  }

  lemma FetchEnds(r: Ranking, stream: seq<Post>, i: nat, place: Place<int>, limit: nat, posts: seq<Post>)
    requires i <= |stream| && |posts| <= limit && !place.done && (i == |stream| || |posts| == limit)
    ensures posts == FirstOf(posts + Rest(r, stream[i..], place), limit)
  {
    var rest := Rest(r, stream[i..], place);
    assert (posts + rest)[..|posts|] == posts;
    if i == |stream| { assert stream[i..] == [] && rest == []; }
  }

  function Displayed(merged: seq<Post>, rank: RankConfig, followingOnly: bool, heroRound: int): seq<Post> {
    var spread := FeedRerank.Spread(merged, rank.spreadWindow);
    var lifted := if followingOnly then spread else FeedRerank.Lifted(spread, rank.exploreTopSlots);
    if heroRound > 0 then FeedRerank.Rotated(lifted, heroRound, rank.heroRotationSlots) else lifted
  }

  method FetchBatches(st: Streams, limit: nat, cursor: Cursor, followingOnly: bool)
    returns (b: Batches, mainReq: nat, smallReq: nat, genReq: nat)
    ensures b == Fetched(st, cursor, limit, followingOnly)
    ensures mainReq == MainReq(limit) && smallReq == genReq == ExploreReq(limit, followingOnly)
  {
    mainReq, smallReq, genReq := limit + 8, 0, 0;
    var main: seq<Post>, small: seq<Post>, general: seq<Post> := [], [], [];
    if !cursor.main.done { main := FetchStream(ByScore, st.main, cursor.main, mainReq); }
    if !followingOnly {
      smallReq, genReq := limit / 2 + 4, limit / 2 + 4;
      if !cursor.small.done { small := FetchStream(ByTime, st.small, Wide(cursor.small), smallReq); }
      if !cursor.gen.done { general := FetchStream(ByScore, st.general, cursor.gen, genReq); }
    }
    b := Batches(main, small, general);
  }

  method Advance(b: Batches, advM: nat, advS: nat, advG: nat, moreM: bool, moreS: bool, moreG: bool)
    returns (next: Cursor)
    requires advM <= |b.main| && advS <= |b.small| && advG <= |b.general|
    ensures next == Cursor(NextPlace(ByScore, b.main, advM, moreM), NextNano(b.small, advS, moreS),
                           NextPlace(ByScore, b.general, advG, moreG))
  {
    next := FIRST;
    if moreM && advM > 0 {
      var last := b.main[advM - 1];
      next := next.(main := Place(last.score, last.id, true, false));
    } else if !moreM {
      next := next.(main := next.main.(done := true));
    }
    if moreS && advS > 0 {
      var last := b.small[advS - 1];
      next := next.(small := Place(last.createdNano, last.id, true, false));
    } else if !moreS {
      next := next.(small := next.small.(done := true));
    }
    if moreG && advG > 0 {
      var last := b.general[advG - 1];
      next := next.(gen := Place(last.score, last.id, true, false));
    } else if !moreG {
      next := next.(gen := next.gen.(done := true));
    }
  }

  /** A limit below one gets an empty page and a cursor that is done with everything, whatever the queries
      give; otherwise the cursor and `hasMore` are those of `FetchPage`, and the page shows what it merged: spread,
      lifted and rotated as `FeedShown` describes it. */
  method FetchPersonalized(st: Streams, limit: int, cursor: Cursor, followingOnly: bool,
                           heroRound: int, rank: RankConfig)
    returns (page: seq<Post>, next: Cursor, hasMore: bool)
    ensures limit < 1 ==> page == [] && AllDone(next) && !hasMore
    ensures limit >= 1 ==>
              var p := FetchPage(st, Config(limit, rank.exploreEveryN, rank.maxPerAuthor), cursor, followingOnly);
              && page == Displayed(p.end.page, rank, followingOnly, heroRound)
              && ShownPage(p.end.page, page, rank, followingOnly, heroRound)
              && next == p.next && hasMore == p.hasMore
  {
    var b: Batches, mainReq: int, smallReq: int, genReq: int := *, *, *, *;
    if limit >= 1 {
      b, mainReq, smallReq, genReq := FetchBatches(st, limit, cursor, followingOnly);
    }
    var merged, advM, advS, advG, moreM, moreS, moreG :=
      MergeFeedStreams(b.main, b.small, b.general, mainReq, smallReq, genReq,
                       limit, rank.exploreEveryN, rank.maxPerAuthor);
    page := Rerank(merged, followingOnly, heroRound, rank);
    DisplayedIsShown(merged, rank, followingOnly, heroRound);
    if limit >= 1 { MergeInvariant(b, Config(limit, rank.exploreEveryN, rank.maxPerAuthor)); }
    next := Advance(b, advM, advS, advG, moreM, moreS, moreG);
    hasMore := moreM || moreS || moreG;
  }

  method Rerank(merged: seq<Post>, followingOnly: bool, heroRound: int, rank: RankConfig) returns (page: seq<Post>)
    ensures page == Displayed(merged, rank, followingOnly, heroRound)
    ensures merged == [] ==> page == []
  {
    page := FeedRerank.SpreadAuthors(merged, rank.spreadWindow);
    if !followingOnly {
      page := FeedRerank.EnsureExploreInTop(page, rank.exploreTopSlots);
    }
    if heroRound > 0 {
      page := FeedRerank.RotateHeroTop(page, heroRound, rank.heroRotationSlots);
    }
  }

  /** Reranking shows exactly the merged posts, so the cursor, which counts merged posts, stays right. */
  lemma DisplayedIsMerged(merged: seq<Post>, rank: RankConfig, followingOnly: bool, heroRound: int)
    ensures multiset(Displayed(merged, rank, followingOnly, heroRound)) == multiset(merged)
  {
    var spread := FeedRerank.Spread(merged, rank.spreadWindow);
    var lifted := if followingOnly then spread else FeedRerank.Lifted(spread, rank.exploreTopSlots);
    FeedRerank.SpreadKeepsPosts(merged, rank.spreadWindow);
    FeedRerank.LiftedTop(spread, rank.exploreTopSlots);
    FeedRerank.RotationKeepsPosts(lifted, heroRound, rank.heroRotationSlots);
  }

  ghost predicate ShownPage(merged: seq<Post>, page: seq<Post>, rank: RankConfig, followingOnly: bool, heroRound: int) {
    FeedShown.Shown(merged, page, rank.spreadWindow, rank.exploreTopSlots, rank.heroRotationSlots, followingOnly,
                    heroRound)
  }

  lemma DisplayedIsShown(merged: seq<Post>, rank: RankConfig, followingOnly: bool, heroRound: int)
    ensures ShownPage(merged, Displayed(merged, rank, followingOnly, heroRound), rank, followingOnly, heroRound)
  {
    var spread := FeedRerank.Spread(merged, rank.spreadWindow);
    var lifted := if followingOnly then spread else FeedRerank.Lifted(spread, rank.exploreTopSlots);
    var page := Displayed(merged, rank, followingOnly, heroRound);
    FeedShown.SpreadIsSpread(merged, rank.spreadWindow);
    FeedShown.LiftedIsLifted(spread, rank.exploreTopSlots);
    FeedShown.LeadIsExact(lifted, page, heroRound, rank.heroRotationSlots);
    assert FeedShown.ShownBy(merged, page, rank.spreadWindow, rank.exploreTopSlots, rank.heroRotationSlots,
                             followingOnly, heroRound, spread, lifted);
  }

  /** A page merged with a cap of at most two, as it is shown without lifting and rotation: at every place with a
      full look-ahead the author is not among the `spreadWindow - 1` posts before it, and at the other places only
      if all posts from there on are by authors just shown. */
  lemma ShownPagesSpread(b: Batches, cfg: Config, page: seq<Post>, rank: RankConfig, followingOnly: bool,
                         heroRound: int)
    requires ShownPage(Merge(b, cfg).page, page, rank, followingOnly, heroRound)
    requires cfg.Cap() <= 2 && rank.spreadWindow >= 2 && (followingOnly || rank.exploreTopSlots < 1) && heroRound <= 0
    ensures var w := rank.spreadWindow;
            && (forall i :: 0 <= i && i + w <= |page| ==> !FeedShown.JustShown(page, w, i, page[i].author))
            && (|page| >= 3 ==> forall i: nat :: i + w >= |page| ==> FeedShown.NoneFitsBehind(page, w, i))
  {
    MergeInvariant(b, cfg);
    FeedRerank.CapTwoPages(Merge(b, cfg).page);
    FeedShown.PlainPage(Merge(b, cfg).page, page, rank.spreadWindow, rank.exploreTopSlots, rank.heroRotationSlots,
                        followingOnly, heroRound);
  }
}
