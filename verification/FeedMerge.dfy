/** `MergeFeedStreams`: a page is filled from three ranked streams. Every N-th slot belongs
    to the two explore streams, an author may fill at most `maxPerAuthor` slots, and a post
    that another stream already put on the page is passed over. */
module FeedMerge {
  import opened Posts

  datatype Stream = Main | Small | General

  datatype Batches = Batches(main: seq<Post>, small: seq<Post>, general: seq<Post>) {
    function Of(s: Stream): seq<Post> {
      match s case Main => main case Small => small case General => general
    }
    function All(): seq<Post> { main + small + general }
  }

  /** How many items of each stream are used up. */
  datatype Counts = Counts(main: nat, small: nat, general: nat) {
    function Of(s: Stream): nat {
      match s case Main => main case Small => small case General => general
    }
    function Bump(s: Stream): Counts {
      match s
      case Main => this.(main := main + 1)
      case Small => this.(small := small + 1)
      case General => this.(general := general + 1)
    }
    predicate Within(b: Batches) {
      main <= |b.main| && small <= |b.small| && general <= |b.general|
    }
    predicate Covers(b: Batches) {
      main >= |b.main| && small >= |b.small| && general >= |b.general|
    }
    function Total(): nat { main + small + general }
  }

  datatype Config = Config(limit: int, exploreEveryN: int, maxPerAuthor: int) {
    function Every(): (n: nat) ensures n >= 2 { if exploreEveryN < 2 then 5 else exploreEveryN }
    function Cap(): (c: nat) ensures c >= 1 { if maxPerAuthor < 1 then 2 else maxPerAuthor }
  }

  /** Where a slot of the page came from. */
  datatype Pick = Pick(stream: Stream, index: nat)

  datatype Outcome = Running | Exhausted | GaveUp

  datatype State = State(page: seq<Post>, picks: seq<Pick>, used: Counts, exploreTurn: nat, stuck: nat,
                         outcome: Outcome)

  datatype Choice = Take(stream: Stream) | Skip(skipped: Stream) | NothingLeft

  const START := State([], [], Counts(0, 0, 0), 0, 0, Running)

  function Tagged(p: Post, s: Stream): Post {
    p.(source := if s.Main? then FromMain else FromExplore)
  }

  predicate IsExploreSlot(cfg: Config, slot: nat) {
    (slot + 1) % cfg.Every() == 0
  }

  /** Item `i` may go on the page: its author has room and its id is new. */
  predicate Open(page: seq<Post>, posts: seq<Post>, i: nat, cap: nat) {
    i < |posts| && |AuthorIds(page, posts[i].author)| < cap && posts[i].id !in Ids(page)
  }

  function PassSeen(page: seq<Post>, posts: seq<Post>, i: nat): (r: nat)
    ensures i <= |posts| ==> i <= r <= |posts|
    ensures r < |posts| ==> posts[r].id !in Ids(page)
    ensures forall k :: i <= k < r && k < |posts| ==> posts[k].id in Ids(page)
    decreases |posts| - i
  {
    if i < |posts| && posts[i].id in Ids(page) then PassSeen(page, posts, i + 1) else i
  }

  function PassSeenAll(b: Batches, page: seq<Post>, used: Counts): Counts {
    Counts(PassSeen(page, b.main, used.main), PassSeen(page, b.small, used.small),
           PassSeen(page, b.general, used.general))
  }

  /** The first of three streams whose next item may be taken. */
  function FirstOpen(b: Batches, cap: nat, page: seq<Post>, used: Counts, s1: Stream, s2: Stream, s3: Stream): Choice {
    if Open(page, b.Of(s1), used.Of(s1), cap) then Take(s1)
    else if Open(page, b.Of(s2), used.Of(s2), cap) then Take(s2)
    else if Open(page, b.Of(s3), used.Of(s3), cap) then Take(s3)
    else if used.main < |b.main| then Skip(Main)
    else if used.small < |b.small| then Skip(Small)
    else if used.general < |b.general| then Skip(General)
    else NothingLeft
  }

  /** What one round does once the streams stand at `used`. */
  function Choose(b: Batches, cfg: Config, page: seq<Post>, used: Counts, turn: nat): (c: Choice)
    ensures c.Take? ==> Open(page, b.Of(c.stream), used.Of(c.stream), cfg.Cap())
    ensures c.Skip? ==> used.Of(c.skipped) < |b.Of(c.skipped)|
    ensures !c.Take? ==> forall s: Stream :: !Open(page, b.Of(s), used.Of(s), cfg.Cap())
    ensures c.NothingLeft? ==> used.Covers(b)
  {
    if !IsExploreSlot(cfg, |page|) then FirstOpen(b, cfg.Cap(), page, used, Main, Small, General)
    else if turn % 2 == 1 then FirstOpen(b, cfg.Cap(), page, used, General, Small, Main)
    else FirstOpen(b, cfg.Cap(), page, used, Small, General, Main)
  }

  function StopIfCovered(b: Batches, st: State): State {
    if st.used.Covers(b) then st.(outcome := Exhausted) else st
  }

  function TakeFrom(b: Batches, cfg: Config, st: State, s: Stream): State
    requires st.used.Of(s) < |b.Of(s)|
  {
    StopIfCovered(b, State(st.page + [Tagged(b.Of(s)[st.used.Of(s)], s)],
                           st.picks + [Pick(s, st.used.Of(s))], st.used.Bump(s),
                           if IsExploreSlot(cfg, |st.page|) then st.exploreTurn + 1 else st.exploreTurn,
                           0, Running))
  }

  function SkipOver(b: Batches, cfg: Config, st: State, s: Stream): State {
    var next := st.(used := st.used.Bump(s), stuck := st.stuck + 1);
    if next.stuck > cfg.limit + 10 then next.(outcome := GaveUp) else StopIfCovered(b, next)
  }

  /** The second half of a round: fill the slot, or skip an item so as not to get stuck. */
  function Act(b: Batches, cfg: Config, st: State): State {
    match Choose(b, cfg, st.page, st.used, st.exploreTurn)
    case Take(s) => TakeFrom(b, cfg, st, s)
    case Skip(s) => SkipOver(b, cfg, st, s)
    case NothingLeft => st.(outcome := Exhausted)
  }

  /** One round of the merge loop. */
  function Step(b: Batches, cfg: Config, st: State): State {
    Act(b, cfg, st.(used := PassSeenAll(b, st.page, st.used)))
  }

  predicate Finished(cfg: Config, st: State) {
    |st.page| >= cfg.limit || !st.outcome.Running?
  }

  function Remaining(b: Batches, st: State): int {
    |b.main| + |b.small| + |b.general| - st.used.Total() + (if st.outcome.Running? then 1 else 0)
  }

  lemma PassProgress(b: Batches, page: seq<Post>, used: Counts)
    requires used.Within(b)
    ensures var used' := PassSeenAll(b, page, used);
            used'.Within(b) && used.main <= used'.main && used.small <= used'.small && used.general <= used'.general
  {}

  lemma ActProgress(b: Batches, cfg: Config, st: State)
    requires st.used.Within(b) && st.outcome.Running?
    ensures var st' := Act(b, cfg, st);
            && st'.used.Within(b) && 0 <= Remaining(b, st') < Remaining(b, st)
            && st.used.main <= st'.used.main && st.used.small <= st'.used.small && st.used.general <= st'.used.general
  {
    var c := Choose(b, cfg, st.page, st.used, st.exploreTurn);
    match c
    case Take(s) => match s { case Main => case Small => case General => }
    case Skip(s) => match s { case Main => case Small => case General => }
    case NothingLeft =>
  }

  /** Every round uses something up or ends the loop, and no stream moves back. */
  lemma StepProgress(b: Batches, cfg: Config, st: State)
    requires st.used.Within(b) && !Finished(cfg, st)
    ensures var st' := Step(b, cfg, st);
            && st'.used.Within(b) && 0 <= Remaining(b, st') < Remaining(b, st)
            && st.used.main <= st'.used.main && st.used.small <= st'.used.small && st.used.general <= st'.used.general
  {
    PassProgress(b, st.page, st.used);
    ActProgress(b, cfg, st.(used := PassSeenAll(b, st.page, st.used)));
  }

  /** Runs the loop to its end. */
  function Run(b: Batches, cfg: Config, st: State): State
    requires st.used.Within(b)
    decreases Remaining(b, st)
  {
    if Finished(cfg, st) then st
    else
      StepProgress(b, cfg, st);
      Run(b, cfg, Step(b, cfg, st))
  }

  function Merge(b: Batches, cfg: Config): State {
    Run(b, cfg, START)
  }

  function MoreMain(b: Batches, req: int, used: nat): bool {
    used < |b.main| || |b.main| == req
  }

  function MoreExplore(batch: seq<Post>, req: int, used: nat): bool {
    |batch| > 0 && (used < |batch| || (req > 0 && |batch| == req))
  }

  // ---------- the loop itself ----------

  function CountOf(authorCount: map<string, nat>, author: string): nat {
    if author in authorCount then authorCount[author] else 0
  }

  /** The two maps of the loop describe the page. */
  ghost predicate Tracks(authorCount: map<string, nat>, seen: set<string>, page: seq<Post>) {
    seen == Ids(page) && forall a :: CountOf(authorCount, a) == |AuthorIds(page, a)|
  }

  predicate Takeable(authorCount: map<string, nat>, seen: set<string>, posts: seq<Post>, i: nat, cap: nat) {
    i < |posts| && CountOf(authorCount, posts[i].author) < cap && posts[i].id !in seen
  }

  method PassOver(posts: seq<Post>, seen: set<string>, from: nat, ghost page: seq<Post>) returns (i: nat)
    requires from <= |posts| && seen == Ids(page)
    ensures i == PassSeen(page, posts, from)
  {
    i := from;
    while i < |posts| && posts[i].id in seen
      invariant i <= |posts|
      invariant PassSeen(page, posts, i) == PassSeen(page, posts, from)
    {
      i := i + 1;
    }
  }

  lemma TracksTake(authorCount: map<string, nat>, seen: set<string>, page: seq<Post>, p: Post)
    requires Tracks(authorCount, seen, page) && p.id !in seen
    ensures Tracks(authorCount[p.author := CountOf(authorCount, p.author) + 1], seen + {p.id}, page + [p])
  {
    AppendedPost(page, p);
    var authorCount' := authorCount[p.author := CountOf(authorCount, p.author) + 1];
    forall a ensures CountOf(authorCount', a) == |AuthorIds(page + [p], a)| {
      AppendedCount(page, p, a);
    }
  }

  /** Which stream fills the next slot, if any can. */
  method SelectSource(b: Batches, used: Counts, authorCount: map<string, nat>, seen: set<string>,
                      isExploreSlot: bool, exploreTurn: nat, cap: nat, ghost cfg: Config, ghost page: seq<Post>)
    returns (progress: bool, source: Stream)
    requires Tracks(authorCount, seen, page) && cap == cfg.Cap() && isExploreSlot == IsExploreSlot(cfg, |page|)
    ensures var c := Choose(b, cfg, page, used, exploreTurn);
            progress == c.Take? && (progress ==> source == c.stream)
  {
    var smallOpen := Takeable(authorCount, seen, b.small, used.small, cap);
    var generalOpen := Takeable(authorCount, seen, b.general, used.general, cap);
    var mainOpen := Takeable(authorCount, seen, b.main, used.main, cap);
    progress, source := true, Main;
    if isExploreSlot {
      if exploreTurn % 2 == 1 {
        if generalOpen { source := General; } else if smallOpen { source := Small; } else { progress := mainOpen; }
      } else {
        if smallOpen { source := Small; } else if generalOpen { source := General; } else { progress := mainOpen; }
      }
    } else if !mainOpen {
      if smallOpen { source := Small; } else if generalOpen { source := General; } else { progress := false; }
    }
  }

  /** Puts item `idx` of a stream on the page and books it. */
  method TakePost(posts: seq<Post>, idx: nat, s: Stream, merged: seq<Post>,
                  authorCount: map<string, nat>, seen: set<string>)
    returns (merged': seq<Post>, authorCount': map<string, nat>, seen': set<string>)
    requires idx < |posts| && posts[idx].id !in seen && Tracks(authorCount, seen, merged)
    ensures merged' == merged + [Tagged(posts[idx], s)] && Tracks(authorCount', seen', merged')
  {
    var p := posts[idx].(source := if s.Main? then FromMain else FromExplore);
    TracksTake(authorCount, seen, merged, p);
    authorCount' := authorCount[p.author := CountOf(authorCount, p.author) + 1];
    seen' := seen + {p.id};
    merged' := merged + [p];
  }

  /** Passes over what is already on the page, in all three streams. */
  method PassOverAll(b: Batches, used: Counts, seen: set<string>, ghost page: seq<Post>) returns (used': Counts)
    requires used.Within(b) && seen == Ids(page)
    ensures used' == PassSeenAll(b, page, used)
  {
    var advM := PassOver(b.main, seen, used.main, page);
    var advS := PassOver(b.small, seen, used.small, page);
    var advG := PassOver(b.general, seen, used.general, page);
    used' := Counts(advM, advS, advG);
  }

  /** No stream can fill the slot: use one item up without taking it. */
  method SkipItem(b: Batches, cfg: Config, used: Counts, stuckRounds: nat, ghost st: State)
    returns (used': Counts, stuckRounds': nat, stop: bool)
    requires st.used == used && st.stuck == stuckRounds && st.outcome.Running?
    requires !Choose(b, cfg, st.page, used, st.exploreTurn).Take?
    ensures var next := Act(b, cfg, st);
            next == st.(used := used', stuck := stuckRounds', outcome := next.outcome) && stop == !next.outcome.Running?
  {
    used', stuckRounds' := used, stuckRounds;
    if used.main < |b.main| { used' := used.Bump(Main); }
    else if used.small < |b.small| { used' := used.Bump(Small); }
    else if used.general < |b.general| { used' := used.Bump(General); }
    else { stop := true; return; }
    stuckRounds' := stuckRounds + 1;
    stop := stuckRounds' > cfg.limit + 10
         || (used'.main >= |b.main| && used'.small >= |b.small| && used'.general >= |b.general|);
  }

  /** One iteration of the loop; `stop` says that it ended in a `break`. */
  method Round(b: Batches, cfg: Config, merged: seq<Post>, used: Counts,
               authorCount: map<string, nat>, seen: set<string>,
               exploreTurn: nat, stuckRounds: nat, ghost st: State)
    returns (merged': seq<Post>, used': Counts, authorCount': map<string, nat>, seen': set<string>,
             exploreTurn': nat, stuckRounds': nat, stop: bool)
    requires used.Within(b) && Tracks(authorCount, seen, merged)
    requires st == State(merged, st.picks, used, exploreTurn, stuckRounds, Running)
    ensures var next := Step(b, cfg, st);
            && next == State(merged', next.picks, used', exploreTurn', stuckRounds', next.outcome)
            && stop == !next.outcome.Running?
    ensures Tracks(authorCount', seen', merged')
  {
    merged', authorCount', seen', exploreTurn', stuckRounds' := merged, authorCount, seen, exploreTurn, stuckRounds;
    used' := PassOverAll(b, used, seen, merged);
    ghost var st1 := st.(used := used');
    var isExploreSlot := (|merged| + 1) % cfg.Every() == 0;
    var progress, source :=
      SelectSource(b, used', authorCount, seen, isExploreSlot, exploreTurn, cfg.Cap(), cfg, merged);
    if progress {
      merged', authorCount', seen' := TakePost(b.Of(source), used'.Of(source), source, merged, authorCount, seen);
      used' := used'.Bump(source);
      if isExploreSlot { exploreTurn' := exploreTurn + 1; }
      stuckRounds' := 0;
      stop := used'.main >= |b.main| && used'.small >= |b.small| && used'.general >= |b.general|;
      assert Step(b, cfg, st) == TakeFrom(b, cfg, st1, source);
    } else {
      used', stuckRounds', stop := SkipItem(b, cfg, used', stuckRounds, st1);
      assert Step(b, cfg, st) == Act(b, cfg, st1);
    }
  }

  method FillPage(b: Batches, cfg: Config) returns (merged: seq<Post>, used: Counts)
    ensures merged == Merge(b, cfg).page && used == Merge(b, cfg).used
  {
    var authorCount: map<string, nat>, seen: set<string>, exploreTurn: nat, stuckRounds: nat := map[], {}, 0, 0;
    merged, used := [], Counts(0, 0, 0);
    ghost var st := START;
    while |merged| < cfg.limit
      invariant used.Within(b) && st.used == used && Run(b, cfg, st) == Merge(b, cfg)
      invariant st == State(merged, st.picks, used, exploreTurn, stuckRounds, Running)
      invariant Tracks(authorCount, seen, merged)
      decreases Remaining(b, st)
    {
      StepProgress(b, cfg, st);
      var stop;
      merged, used, authorCount, seen, exploreTurn, stuckRounds, stop :=
        Round(b, cfg, merged, used, authorCount, seen, exploreTurn, stuckRounds, st);
      st := Step(b, cfg, st);
      if stop { break; }
    }
  }

  method MergeFeedStreams(main: seq<Post>, small: seq<Post>, general: seq<Post>,
                          mainReq: int, smallReq: int, genReq: int, limit: int, exploreEveryN: int, maxPerAuthor: int)
    returns (merged: seq<Post>, advM: nat, advS: nat, advG: nat, moreM: bool, moreS: bool, moreG: bool)
    ensures limit < 1 ==> merged == [] && advM == advS == advG == 0 && !moreM && !moreS && !moreG
    ensures limit >= 1 ==>
      var b := Batches(main, small, general);
      var end := Merge(b, Config(limit, exploreEveryN, maxPerAuthor));
      && merged == end.page && Counts(advM, advS, advG) == end.used
      && moreM == MoreMain(b, mainReq, advM)
      && moreS == MoreExplore(small, smallReq, advS) && moreG == MoreExplore(general, genReq, advG)
  {
    if limit < 1 { return [], 0, 0, 0, false, false, false; }
    var used;
    merged, used := FillPage(Batches(main, small, general), Config(limit, exploreEveryN, maxPerAuthor));
    advM, advS, advG := used.main, used.small, used.general;
    moreM := advM < |main| || |main| == mainReq;
    moreS := |small| > 0 && (advS < |small| || (smallReq > 0 && |small| == smallReq));
    moreG := |general| > 0 && (advG < |general| || (genReq > 0 && |general| == genReq));
  }
}
