/** The merge loop round by round: which stream fills a slot, and when the loop gives up. A round is read off
    two states in a row, without the functions that the loop is computed with. */
module FeedRounds {
  import opened Posts
  import opened FeedMerge
  import opened FeedMergeProofs
  import FeedLayout

  /** All states of the loop from `st` to the end. */
  ghost function States(b: Batches, cfg: Config, st: State): (run: seq<State>)
    requires st.used.Within(b)
    ensures run != [] && run[0] == st
    decreases Remaining(b, st)
  {
    if Finished(cfg, st) then [st]
    else
      StepProgress(b, cfg, st);
      [st] + States(b, cfg, Step(b, cfg, st))
  }

  // ---------- the rule of a round ----------

  /** The next item of a stream that is not on the page. */
  predicate NextUnseen(posts: seq<Post>, page: seq<Post>, from: nat, next: nat) {
    && from <= next <= |posts|
    && (forall i :: from <= i < next ==> exists p :: p in page && p.id == posts[i].id)
    && (next < |posts| ==> forall p :: p in page ==> p.id != posts[next].id)
  }

  ghost predicate AllNextUnseen(b: Batches, st: State, at: Counts) {
    && NextUnseen(b.main, st.page, st.used.main, at.main)
    && NextUnseen(b.small, st.page, st.used.small, at.small)
    && NextUnseen(b.general, st.page, st.used.general, at.general)
  }

  /** The stream has a next item, and its author still has room on the page. */
  predicate CanFill(posts: seq<Post>, page: seq<Post>, next: nat, cap: nat) {
    next < |posts| && |AuthorIds(page, posts[next].author)| < cap
  }

  /** The stream that has the slot, told from which of them can fill it. Before slot `k` there were `k / n` explore
      slots; they go to the small and the general stream in turn, to the other one if the one whose turn it is
      cannot, and to the main stream only if neither can. Other slots go to main, small, general in this order. */
  predicate HasSlot(s: Stream, n: nat, k: nat, main: bool, small: bool, general: bool)
    requires n >= 2
  {
    if (k + 1) % n == 0 then
      match s
      case Main => main && !small && !general
      case Small => small && (general ==> k / n % 2 == 0)
      case General => general && (small ==> k / n % 2 == 1)
    else
      match s
      case Main => main
      case Small => small && !main
      case General => general && !main && !small
  }

  predicate Preferred(b: Batches, n: nat, cap: nat, page: seq<Post>, at: Counts, s: Stream)
    requires n >= 2
  {
    HasSlot(s, n, |page|, CanFill(b.main, page, at.main, cap), CanFill(b.small, page, at.small, cap),
            CanFill(b.general, page, at.general, cap))
  }

  /** The round puts item `i` of a stream on the page, with the tag of the stream. */
  predicate Shows(st: State, st': State, p: Post, s: Stream, i: nat) {
    && st'.page == st.page + [p.(source := if s == Main then FromMain else FromExplore)]
    && st'.picks == st.picks + [Pick(s, i)]
  }

  /** The next item of the stream fills the slot. */
  predicate Fills(b: Batches, n: nat, cap: nat, st: State, at: Counts, st': State, s: Stream)
    requires n >= 2
  {
    && Preferred(b, n, cap, st.page, at, s)
    && match s
       case Main => Shows(st, st', b.main[at.main], s, at.main) && st'.used == at.(main := at.main + 1)
       case Small => Shows(st, st', b.small[at.small], s, at.small) && st'.used == at.(small := at.small + 1)
       case General =>
         Shows(st, st', b.general[at.general], s, at.general) && st'.used == at.(general := at.general + 1)
  }

  /** No stream can fill the slot: an item of the first stream that has one is used up. */
  predicate Skips(b: Batches, cap: nat, st: State, at: Counts, st': State) {
    && !CanFill(b.main, st.page, at.main, cap) && !CanFill(b.small, st.page, at.small, cap)
    && !CanFill(b.general, st.page, at.general, cap)
    && st'.page == st.page && st'.picks == st.picks
    && st'.used == if at.main < |b.main| then at.(main := at.main + 1)
                   else if at.small < |b.small| then at.(small := at.small + 1)
                   else if at.general < |b.general| then at.(general := at.general + 1)
                   else at
  }

  ghost predicate RoundRule(b: Batches, n: nat, cap: nat, st: State, at: Counts, st': State)
    requires n >= 2
  {
    AllNextUnseen(b, st, at) && ((exists s :: Fills(b, n, cap, st, at, st', s)) || Skips(b, cap, st, at, st'))
  }

  /** The settings, with their defaults. */
  function SlotsApart(cfg: Config): (n: nat)
    ensures n >= 2
  {
    if cfg.exploreEveryN < 2 then 5 else cfg.exploreEveryN
  }

  function PerAuthor(cfg: Config): nat { if cfg.maxPerAuthor < 1 then 2 else cfg.maxPerAuthor }

  ghost predicate Ruled(b: Batches, cfg: Config, st: State, st': State) {
    exists at :: RoundRule(b, SlotsApart(cfg), PerAuthor(cfg), st, at, st')
  }

  // ---------- every round follows it ----------

  /** The turn counts the explore slots of the page. */
  predicate TurnCounts(cfg: Config, st: State) {
    st.exploreTurn == |st.page| / cfg.Every()
  }

  lemma SeenById(page: seq<Post>, id: string)
    ensures id in Ids(page) <==> exists p :: p in page && p.id == id
  {}

  lemma PassedIsUnseen(posts: seq<Post>, page: seq<Post>, from: nat)
    requires from <= |posts|
    ensures NextUnseen(posts, page, from, PassSeen(page, posts, from))
  {
    var next := PassSeen(page, posts, from);
    forall i | from <= i < next ensures exists p :: p in page && p.id == posts[i].id { SeenById(page, posts[i].id); }
    if next < |posts| { SeenById(page, posts[next].id); }
  }

  lemma ChosenHasSlot(b: Batches, cfg: Config, page: seq<Post>, at: Counts, turn: nat, s: Stream)
    requires Choose(b, cfg, page, at, turn) == Take(s) && turn == |page| / cfg.Every()
    requires forall r: Stream :: at.Of(r) < |b.Of(r)| ==> b.Of(r)[at.Of(r)].id !in Ids(page)
    ensures Preferred(b, SlotsApart(cfg), PerAuthor(cfg), page, at, s) && at.Of(s) < |b.Of(s)|
  {
    assert at.Of(Main) == at.main && at.Of(Small) == at.small && at.Of(General) == at.general;
  }

  lemma NoneCanFill(b: Batches, cfg: Config, page: seq<Post>, at: Counts, turn: nat)
    requires !Choose(b, cfg, page, at, turn).Take?
    requires forall r: Stream :: at.Of(r) < |b.Of(r)| ==> b.Of(r)[at.Of(r)].id !in Ids(page)
    ensures !CanFill(b.main, page, at.main, PerAuthor(cfg)) && !CanFill(b.small, page, at.small, PerAuthor(cfg))
            && !CanFill(b.general, page, at.general, PerAuthor(cfg))
  {
    assert at.Of(Main) == at.main && at.Of(Small) == at.small && at.Of(General) == at.general;
  }

  lemma ActFollowsRule(b: Batches, cfg: Config, st: State, at: Counts)
    requires at == PassSeenAll(b, st.page, st.used) && AllNextUnseen(b, st, at) && TurnCounts(cfg, st)
    ensures RoundRule(b, SlotsApart(cfg), PerAuthor(cfg), st, at, Act(b, cfg, st.(used := at)))
  {
    var next := Act(b, cfg, st.(used := at));
    NextIsUnseen(b, st.page, st.used);
    var c := Choose(b, cfg, st.page, at, st.exploreTurn);
    if c.Take? {
      ChosenHasSlot(b, cfg, st.page, at, st.exploreTurn, c.stream);
      assert Fills(b, SlotsApart(cfg), PerAuthor(cfg), st, at, next, c.stream);
    } else {
      NoneCanFill(b, cfg, st.page, at, st.exploreTurn);
      assert Skips(b, PerAuthor(cfg), st, at, next);
    }
  }

  lemma AllPassedAreUnseen(b: Batches, st: State)
    requires st.used.Within(b)
    ensures AllNextUnseen(b, st, PassSeenAll(b, st.page, st.used))
  {
    PassedIsUnseen(b.main, st.page, st.used.main);
    PassedIsUnseen(b.small, st.page, st.used.small);
    PassedIsUnseen(b.general, st.page, st.used.general);
  }

  lemma StepFollowsRule(b: Batches, cfg: Config, st: State)
    requires st.used.Within(b) && TurnCounts(cfg, st)
    ensures Ruled(b, cfg, st, Step(b, cfg, st))
  {
    AllPassedAreUnseen(b, st);
    ActFollowsRule(b, cfg, st, PassSeenAll(b, st.page, st.used));
  }

  /** The explore turn only moves on with the explore slots. */
  lemma StepCountsTurns(b: Batches, cfg: Config, st: State)
    requires TurnCounts(cfg, st)
    ensures TurnCounts(cfg, Step(b, cfg, st))
  {
    var next := st.(used := PassSeenAll(b, st.page, st.used));
    FeedLayout.SlotBound(cfg.Every(), |st.page|);
    match Choose(b, cfg, next.page, next.used, next.exploreTurn)
    case Take(s) =>
    case Skip(s) =>
    case NothingLeft =>
  }

  // ---------- the whole run ----------

  ghost predicate StepsOn(b: Batches, cfg: Config, st: State, st': State) {
    st.used.Within(b) && !Finished(cfg, st) && st' == Step(b, cfg, st)
  }

  lemma {:induction false} StatesAreSteps(b: Batches, cfg: Config, st: State, i: nat)
    requires st.used.Within(b) && i + 1 < |States(b, cfg, st)|
    ensures StepsOn(b, cfg, States(b, cfg, st)[i], States(b, cfg, st)[i + 1])
    decreases i
  {
    StepProgress(b, cfg, st);
    if i > 0 { StatesAreSteps(b, cfg, Step(b, cfg, st), i - 1); }
  }

  lemma {:induction false} StatesEnd(b: Batches, cfg: Config, st: State)
    requires st.used.Within(b)
    ensures var run := States(b, cfg, st); run[|run| - 1] == Run(b, cfg, st)
    decreases Remaining(b, st)
  {
    if !Finished(cfg, st) {
      StepProgress(b, cfg, st);
      StatesEnd(b, cfg, Step(b, cfg, st));
    }
  }

  lemma {:induction false} TurnsAreCounted(b: Batches, cfg: Config, i: nat)
    requires i < |States(b, cfg, START)|
    ensures TurnCounts(cfg, States(b, cfg, START)[i])
  {
    if i > 0 {
      TurnsAreCounted(b, cfg, i - 1);
      StatesAreSteps(b, cfg, START, i - 1);
      StepCountsTurns(b, cfg, States(b, cfg, START)[i - 1]);
    } else {
      FeedLayout.SlotBound(cfg.Every(), 0);
    }
  }

  ghost predicate RuledAt(b: Batches, cfg: Config, run: seq<State>, i: int) {
    0 <= i < |run| - 1 ==> Ruled(b, cfg, run[i], run[i + 1])
  }

  ghost predicate AllRuled(b: Batches, cfg: Config, run: seq<State>) {
    forall i :: RuledAt(b, cfg, run, i)
  }

  /** The merge is a run of the loop from the empty page, every round of which follows the rule. */
  lemma EveryRound(b: Batches, cfg: Config)
    ensures var run := States(b, cfg, START);
            run[0] == START && run[|run| - 1] == Merge(b, cfg) && AllRuled(b, cfg, run)
  {
    var run := States(b, cfg, START);
    StatesEnd(b, cfg, START);
    forall i ensures RuledAt(b, cfg, run, i) {
      if 0 <= i < |run| - 1 {
        StatesAreSteps(b, cfg, START, i);
        TurnsAreCounted(b, cfg, i);
        StepFollowsRule(b, cfg, run[i]);
      }
    }
  }

  // ---------- slot by slot ----------

  /** What is on the page stays, each slot with its pick. */
  predicate Extends(st: State, st': State) {
    && st.page <= st'.page && st.picks <= st'.picks
    && |st'.picks| - |st.picks| == |st'.page| - |st.page|
  }

  lemma RuleGrows(b: Batches, cfg: Config, st: State, st': State)
    requires Ruled(b, cfg, st, st')
    ensures Extends(st, st') && |st'.page| <= |st.page| + 1
  {
  }

  lemma ExtendsOn(st: State, st': State, st'': State)
    requires Extends(st, st') && Extends(st', st'')
    ensures Extends(st, st'')
  {
  }

  lemma {:induction false} PagesGrow(b: Batches, cfg: Config, run: seq<State>, i: nat, j: nat)
    requires AllRuled(b, cfg, run) && i <= j < |run|
    ensures Extends(run[i], run[j])
    decreases j
  {
    if i < j {
      PagesGrow(b, cfg, run, i, j - 1);
      RoundGrows(b, cfg, run, j - 1);
      ExtendsOn(run[i], run[j - 1], run[j]);
    }
  }

  lemma RoundGrows(b: Batches, cfg: Config, run: seq<State>, i: nat)
    requires AllRuled(b, cfg, run) && i + 1 < |run|
    ensures Extends(run[i], run[i + 1]) && |run[i + 1].page| <= |run[i].page| + 1
  {
    assert RuledAt(b, cfg, run, i);
    RuleGrows(b, cfg, run[i], run[i + 1]);
  }

  /** The round that fills slot `k`. */
  lemma {:induction false} RoundOf(b: Batches, cfg: Config, run: seq<State>, j: nat, k: nat) returns (i: nat)
    requires AllRuled(b, cfg, run) && j < |run| && run[0].page == [] && k < |run[j].page|
    ensures i < j && |run[i].page| == k && |run[i + 1].page| == k + 1
    decreases j
  {
    RoundGrows(b, cfg, run, j - 1);
    if k < |run[j - 1].page| { i := RoundOf(b, cfg, run, j - 1, k); } else { i := j - 1; }
  }

  /** Slot `k` was filled in state `st`, with the page up to there, by the next unseen item of the stream that
      had the slot. */
  ghost predicate FilledSlot(b: Batches, cfg: Config, st: State, at: Counts, end: State, k: nat)
    requires k < |end.page| == |end.picks|
  {
    && st.page == end.page[..k] && AllNextUnseen(b, st, at)
    && Preferred(b, SlotsApart(cfg), PerAuthor(cfg), end.page[..k], at, end.picks[k].stream)
    && match end.picks[k].stream
       case Main => end.picks[k].index == at.main < |b.main| && end.page[k] == b.main[at.main].(source := FromMain)
       case Small => end.picks[k].index == at.small < |b.small|
                     && end.page[k] == b.small[at.small].(source := FromExplore)
       case General => end.picks[k].index == at.general < |b.general|
                       && end.page[k] == b.general[at.general].(source := FromExplore)
  }

  lemma FilledByRound(b: Batches, cfg: Config, st: State, st': State, end: State) returns (at: Counts)
    requires Ruled(b, cfg, st, st') && |st'.page| == |st.page| + 1 && |st.picks| == |st.page|
    requires Extends(st', end) && |end.page| == |end.picks|
    ensures FilledSlot(b, cfg, st, at, end, |st.page|)
  {
    at :| RoundRule(b, SlotsApart(cfg), PerAuthor(cfg), st, at, st');
    var s :| Fills(b, SlotsApart(cfg), PerAuthor(cfg), st, at, st', s);
    LastSlotStays(st, st', end);
  }

  lemma LastSlotStays(st: State, st': State, end: State)
    requires Extends(st, st') && Extends(st', end) && |st'.page| == |st.page| + 1 && |st.picks| == |st.page|
    ensures |end.picks| == |end.page| > |st.page| && st.page == end.page[..|st.page|]
    ensures end.page[|st.page|] == st'.page[|st.page|] && end.picks[|st.page|] == st'.picks[|st.page|]
  {
  }

  lemma SlotOfRun(b: Batches, cfg: Config, run: seq<State>, k: nat) returns (i: nat, at: Counts)
    requires AllRuled(b, cfg, run) && run != [] && run[0].page == [] && run[0].picks == []
    requires k < |run[|run| - 1].page|
    ensures var end := run[|run| - 1];
            i < |run| - 1 && |end.picks| == |end.page| && FilledSlot(b, cfg, run[i], at, end, k)
  {
    i := RoundOf(b, cfg, run, |run| - 1, k);
    PagesGrow(b, cfg, run, 0, i);
    PagesGrow(b, cfg, run, i + 1, |run| - 1);
    PagesGrow(b, cfg, run, 0, |run| - 1);
    assert RuledAt(b, cfg, run, i);
    at := FilledByRound(b, cfg, run[i], run[i + 1], run[|run| - 1]);
  }

  /** Every slot of every page, on all inputs: the stream that had the slot fills it. */
  lemma EverySlot(b: Batches, cfg: Config, k: nat) returns (i: nat, at: Counts)
    requires k < |Merge(b, cfg).page|
    ensures var run, end := States(b, cfg, START), Merge(b, cfg);
            i < |run| - 1 && |end.picks| == |end.page| && FilledSlot(b, cfg, run[i], at, end, k)
  {
    EveryRound(b, cfg);
    i, at := SlotOfRun(b, cfg, States(b, cfg, START), k);
  }

  // ---------- when the loop ends ----------

  /** After `n` rounds in a row that filled no slot. */
  predicate SkippedFor(run: seq<State>, i: nat, n: nat)
    requires i < |run|
  {
    n <= i && run[i - n].page == run[i].page && (n == i || |run[i - n - 1].page| < |run[i].page|)
  }

  /** What a round does to the counter of skips, and what holds if the loop goes on after it. */
  ghost predicate SkipsCounted(b: Batches, cfg: Config, st: State, st': State) {
    && (!st'.outcome.Exhausted? ==>
          || (st'.page == st.page && st'.stuck == st.stuck + 1)
          || (|st'.page| == |st.page| + 1 && st'.stuck == 0))
    && (!Finished(cfg, st') ==>
          |st'.page| < cfg.limit && !st'.used.Covers(b) && !st'.outcome.Exhausted?
          && (st.stuck <= cfg.limit + 10 ==> st'.stuck <= cfg.limit + 10))
  }

  lemma StepCountsSkips(b: Batches, cfg: Config, st: State)
    requires !Finished(cfg, st)
    ensures SkipsCounted(b, cfg, st, Step(b, cfg, st)) && !st.outcome.Exhausted?
  {
  }

  /** Round `i` of a run, as far as the counter goes. */
  ghost predicate CountedAt(b: Batches, cfg: Config, run: seq<State>, i: int) {
    0 <= i < |run| - 1 ==> SkipsCounted(b, cfg, run[i], run[i + 1]) && !Finished(cfg, run[i])
  }

  ghost predicate AllCounted(b: Batches, cfg: Config, run: seq<State>) {
    && run != [] && run[0].stuck == 0 && (forall i :: CountedAt(b, cfg, run, i))
  }

  lemma StatesAreCounted(b: Batches, cfg: Config)
    ensures AllCounted(b, cfg, States(b, cfg, START))
  {
    var run := States(b, cfg, START);
    forall i ensures CountedAt(b, cfg, run, i) {
      if 0 <= i < |run| - 1 {
        StatesAreSteps(b, cfg, START, i);
        StepCountsSkips(b, cfg, run[i]);
      }
    }
  }

  lemma {:induction false} SkipsAreCounted(b: Batches, cfg: Config, run: seq<State>, i: nat)
    requires AllCounted(b, cfg, run) && i < |run| && !run[i].outcome.Exhausted?
    ensures SkippedFor(run, i, run[i].stuck)
  {
    if i > 0 {
      assert CountedAt(b, cfg, run, i - 1);
      SkipsAreCounted(b, cfg, run, i - 1);
    }
  }

  /** No slot was filled in the `n` rounds before. */
  predicate NoneFilled(run: seq<State>, i: nat, n: nat)
    requires i < |run|
  {
    i >= n && run[i - n].page == run[i].page
  }

  lemma FewSkips(b: Batches, cfg: Config, run: seq<State>, i: nat, m: nat, n: nat)
    requires AllRuled(b, cfg, run) && i < |run| && SkippedFor(run, i, m) && m < n
    ensures !NoneFilled(run, i, n)
  {
    if i >= n { PagesGrow(b, cfg, run, i - n, i - m - 1); }
  }

  lemma {:induction false} StuckIsBounded(b: Batches, cfg: Config, run: seq<State>, i: nat)
    requires AllCounted(b, cfg, run) && cfg.limit >= 1 && i < |run| - 1
    ensures run[i].stuck <= cfg.limit + 10
  {
    if i > 0 {
      StuckIsBounded(b, cfg, run, i - 1);
      assert CountedAt(b, cfg, run, i - 1) && CountedAt(b, cfg, run, i);
    }
  }

  /** The loop has reason to go on: the page has room, something is left, and not all of the last `limit + 11`
      rounds left their slot empty. */
  ghost predicate Unfinished(b: Batches, cfg: Config, run: seq<State>, i: nat)
    requires i < |run| && cfg.limit >= 1
  {
    |run[i].page| < cfg.limit && !run[i].used.Covers(b) && !NoneFilled(run, i, cfg.limit + 11)
  }

  lemma MiddleGoesOn(b: Batches, cfg: Config, run: seq<State>, i: nat)
    requires AllCounted(b, cfg, run) && AllRuled(b, cfg, run) && cfg.limit >= 1 && 0 < i < |run| - 1
    ensures Unfinished(b, cfg, run, i)
  {
    assert CountedAt(b, cfg, run, i - 1) && CountedAt(b, cfg, run, i);
    StuckIsBounded(b, cfg, run, i);
    SkipsAreCounted(b, cfg, run, i);
    FewSkips(b, cfg, run, i, run[i].stuck, cfg.limit + 11);
  }

  lemma EndIsFinished(b: Batches, cfg: Config, run: seq<State>, i: nat)
    requires AllCounted(b, cfg, run) && AllRuled(b, cfg, run) && cfg.limit >= 1 && 0 < i == |run| - 1
    requires Finished(cfg, run[i]) && (run[i].outcome.Exhausted? ==> run[i].used.Covers(b))
    requires run[i].outcome.GaveUp? ==> run[i].stuck > cfg.limit + 10
    ensures !Unfinished(b, cfg, run, i)
  {
    if run[i].outcome.GaveUp? {
      StuckIsBounded(b, cfg, run, i - 1);
      SkipsAreCounted(b, cfg, run, i);
      assert CountedAt(b, cfg, run, i - 1);
    }
  }

  /** After its first round the loop goes on exactly as long as it has reason to. */
  lemma LoopEnds(b: Batches, cfg: Config, i: nat)
    requires cfg.limit >= 1 && 0 < i < |States(b, cfg, START)|
    ensures i < |States(b, cfg, START)| - 1 <==> Unfinished(b, cfg, States(b, cfg, START), i)
  {
    var run := States(b, cfg, START);
    EveryRound(b, cfg);
    StatesAreCounted(b, cfg);
    if i < |run| - 1 {
      MiddleGoesOn(b, cfg, run, i);
    } else {
      MergeInvariant(b, cfg);
      EndIsFinished(b, cfg, run, i);
    }
  }
}
