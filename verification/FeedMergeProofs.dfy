/** What a merged page guarantees, for every input and every run of the loop. */
module FeedMergeProofs {
  import opened Basics
  import opened Posts
  import opened FeedMerge
  import opened Totals

  // ---------- the invariant of the loop ----------

  /** Every slot shows the item it was picked from, and only used-up items are picked. */
  ghost predicate Linked(b: Batches, st: State) {
    && |st.picks| == |st.page|
    && forall k :: 0 <= k < |st.page| ==> PickedFrom(b, st.used, st.picks[k], st.page[k])
  }

  predicate PickedFrom(b: Batches, used: Counts, pick: Pick, p: Post) {
    && pick.index < used.Of(pick.stream) && pick.index < |b.Of(pick.stream)|
    && p == Tagged(b.Of(pick.stream)[pick.index], pick.stream)
  }

  /** Items of one stream stand on the page in the order of that stream. */
  ghost predicate KeepsStreamOrder(picks: seq<Pick>) {
    forall j, k :: 0 <= j < k < |picks| && picks[j].stream == picks[k].stream ==> picks[j].index < picks[k].index
  }

  /** The post is on the page, or its author has no slot left there. */
  predicate Settled(page: seq<Post>, p: Post, cap: nat) {
    p.id in Ids(page) || |AuthorIds(page, p.author)| >= cap
  }

  ghost predicate SettledUpTo(page: seq<Post>, posts: seq<Post>, n: nat, cap: nat) {
    forall i :: 0 <= i < n && i < |posts| ==> Settled(page, posts[i], cap)
  }

  ghost predicate NothingLost(b: Batches, page: seq<Post>, used: Counts, cap: nat) {
    forall s: Stream :: SettledUpTo(page, b.Of(s), used.Of(s), cap)
  }

  ghost predicate WithinCap(page: seq<Post>, cap: nat) {
    DistinctIds(page) && forall a :: |AuthorIds(page, a)| <= cap
  }

  ghost predicate Inv(b: Batches, cfg: Config, st: State) {
    && st.used.Within(b) && Linked(b, st) && KeepsStreamOrder(st.picks)
    && WithinCap(st.page, cfg.Cap()) && NothingLost(b, st.page, st.used, cfg.Cap())
    && (st.page == [] || |st.page| <= cfg.limit)
    && |st.page| + st.stuck <= st.used.Total() && (st.stuck > 0 ==> |st.page| >= cfg.Cap())
    && (st.outcome.Exhausted? ==> st.used.Covers(b))
    && (st.outcome.GaveUp? ==> st.stuck > cfg.limit + 10)
  }

  lemma SettledGrows(page: seq<Post>, p: Post, q: Post, cap: nat)
    requires Settled(page, q, cap)
    ensures Settled(page + [p], q, cap)
  {
    AppendedPost(page, p);
    var before, after := AuthorIds(page, q.author), AuthorIds(page + [p], q.author);
    assert after == before + (after - before);
    assert |after| == |before| + |after - before|;
  }

  lemma PassKeeps(b: Batches, cfg: Config, st: State)
    requires Inv(b, cfg, st) && st.outcome.Running?
    ensures Inv(b, cfg, st.(used := PassSeenAll(b, st.page, st.used)))
  {
    PassProgress(b, st.page, st.used);
    PassLosesNothing(b, st.page, st.used, cfg.Cap());
    LinksStay(b, st, PassSeenAll(b, st.page, st.used));
  }

  lemma PassLosesNothing(b: Batches, page: seq<Post>, used: Counts, cap: nat)
    requires NothingLost(b, page, used, cap)
    ensures NothingLost(b, page, PassSeenAll(b, page, used), cap)
  {
    var used' := PassSeenAll(b, page, used);
    forall s: Stream ensures SettledUpTo(page, b.Of(s), used'.Of(s), cap) {
      assert SettledUpTo(page, b.Of(s), used.Of(s), cap);
      assert used'.Of(s) == PassSeen(page, b.Of(s), used.Of(s));
    }
  }

  /** Using up more takes nothing back. */
  lemma LinksStay(b: Batches, st: State, used': Counts)
    requires Linked(b, st)
    requires st.used.main <= used'.main && st.used.small <= used'.small && st.used.general <= used'.general
    ensures Linked(b, st.(used := used'))
  {
    forall k | 0 <= k < |st.page| ensures PickedFrom(b, used', st.picks[k], st.page[k]) {
      assert PickedFrom(b, st.used, st.picks[k], st.page[k]);
    }
  }

  lemma BumpedCounts(c: Counts, s: Stream)
    ensures forall r: Stream :: c.Bump(s).Of(r) == c.Of(r) + (if r == s then 1 else 0)
    ensures c.Bump(s).Total() == c.Total() + 1
  {}

  lemma PageKeepsCap(page: seq<Post>, p: Post, cap: nat)
    requires WithinCap(page, cap) && p.id !in Ids(page) && |AuthorIds(page, p.author)| < cap
    ensures WithinCap(page + [p], cap)
  {
    forall i | 0 <= i < |page| ensures page[i].id != p.id { assert page[i].id in Ids(page); }
    forall a ensures |AuthorIds(page + [p], a)| <= cap { AppendedCount(page, p, a); }
  }

  lemma TakeLosesNothing(b: Batches, page: seq<Post>, used: Counts, cap: nat, s: Stream)
    requires NothingLost(b, page, used, cap) && used.Of(s) < |b.Of(s)|
    ensures NothingLost(b, page + [Tagged(b.Of(s)[used.Of(s)], s)], used.Bump(s), cap)
  {
    BumpedCounts(used, s);
    var p := Tagged(b.Of(s)[used.Of(s)], s);
    forall r: Stream ensures SettledUpTo(page + [p], b.Of(r), used.Bump(s).Of(r), cap) {
      assert SettledUpTo(page, b.Of(r), used.Of(r), cap);
      SettledUpToGrows(page, p, b.Of(r), used.Of(r), cap);
      if r == s { TakenIsSettled(page, p, b.Of(s), used.Of(s), cap); }
    }
  }

  /** The post that takes the slot is settled by being on the page. */
  lemma TakenIsSettled(page: seq<Post>, p: Post, posts: seq<Post>, n: nat, cap: nat)
    requires n < |posts| && p.id == posts[n].id && SettledUpTo(page + [p], posts, n, cap)
    ensures SettledUpTo(page + [p], posts, n + 1, cap)
  {
    AppendedPost(page, p);
  }

  lemma SettledUpToGrows(page: seq<Post>, p: Post, posts: seq<Post>, n: nat, cap: nat)
    requires SettledUpTo(page, posts, n, cap)
    ensures SettledUpTo(page + [p], posts, n, cap)
  {
    forall i | 0 <= i < n && i < |posts| ensures Settled(page + [p], posts[i], cap) {
      SettledGrows(page, p, posts[i], cap);
    }
  }

  lemma TakeKeepsLinks(b: Batches, st: State, s: Stream)
    requires Linked(b, st) && KeepsStreamOrder(st.picks) && st.used.Of(s) < |b.Of(s)|
    ensures var st' := st.(page := st.page + [Tagged(b.Of(s)[st.used.Of(s)], s)],
                           picks := st.picks + [Pick(s, st.used.Of(s))], used := st.used.Bump(s));
            Linked(b, st') && KeepsStreamOrder(st'.picks)
  {
    BumpedCounts(st.used, s);
    var picks' := st.picks + [Pick(s, st.used.Of(s))];
    forall j, k | 0 <= j < k < |picks'| && picks'[j].stream == picks'[k].stream
      ensures picks'[j].index < picks'[k].index
    {
      assert PickedFrom(b, st.used, st.picks[j], st.page[j]);
    }
  }

  lemma TakeKeeps(b: Batches, cfg: Config, st: State, s: Stream)
    requires Inv(b, cfg, st) && !Finished(cfg, st) && Open(st.page, b.Of(s), st.used.Of(s), cfg.Cap())
    ensures Inv(b, cfg, TakeFrom(b, cfg, st, s))
  {
    BumpedCounts(st.used, s);
    TakeKeepsLinks(b, st, s);
    PageKeepsCap(st.page, Tagged(b.Of(s)[st.used.Of(s)], s), cfg.Cap());
    TakeLosesNothing(b, st.page, st.used, cfg.Cap(), s);
  }

  lemma SkipLosesNothing(b: Batches, page: seq<Post>, used: Counts, cap: nat, s: Stream)
    requires NothingLost(b, page, used, cap)
    requires used.Of(s) < |b.Of(s)| && Settled(page, b.Of(s)[used.Of(s)], cap)
    ensures NothingLost(b, page, used.Bump(s), cap)
  {
    BumpedCounts(used, s);
    forall r: Stream ensures SettledUpTo(page, b.Of(r), used.Bump(s).Of(r), cap) {
      assert SettledUpTo(page, b.Of(r), used.Of(r), cap);
    }
  }

  lemma {:induction false} CapFits(page: seq<Post>, author: string)
    ensures |AuthorIds(page, author)| <= |page|
  {
    if page != [] {
      var front, p := page[..|page| - 1], page[|page| - 1];
      CapFits(front, author);
      AppendedPost(front, p);
      assert page == front + [p];
      assert |AuthorIds(front, author) + {p.id}| <= |AuthorIds(front, author)| + 1;
    }
  }

  lemma SkipKeeps(b: Batches, cfg: Config, st: State, s: Stream)
    requires Inv(b, cfg, st) && !Finished(cfg, st) && st.used.Of(s) < |b.Of(s)|
    requires |AuthorIds(st.page, b.Of(s)[st.used.Of(s)].author)| >= cfg.Cap()
    ensures Inv(b, cfg, SkipOver(b, cfg, st, s))
  {
    BumpedCounts(st.used, s);
    SkipLosesNothing(b, st.page, st.used, cfg.Cap(), s);
    SkipKeepsLinks(b, st, s);
    CapFits(st.page, b.Of(s)[st.used.Of(s)].author);
    assert st.used.Bump(s).Within(b);
  }

  lemma SkipKeepsLinks(b: Batches, st: State, s: Stream)
    requires Linked(b, st)
    ensures forall k :: 0 <= k < |st.page| ==> PickedFrom(b, st.used.Bump(s), st.picks[k], st.page[k])
  {
    BumpedCounts(st.used, s);
    forall k | 0 <= k < |st.page| ensures PickedFrom(b, st.used.Bump(s), st.picks[k], st.page[k]) {
      assert PickedFrom(b, st.used, st.picks[k], st.page[k]);
    }
  }

  lemma StepKeeps(b: Batches, cfg: Config, st: State)
    requires Inv(b, cfg, st) && !Finished(cfg, st)
    ensures Inv(b, cfg, Step(b, cfg, st))
  {
    PassKeeps(b, cfg, st);
    NextIsUnseen(b, st.page, st.used);
    ActKeeps(b, cfg, st.(used := PassSeenAll(b, st.page, st.used)));
  }

  lemma NextIsUnseen(b: Batches, page: seq<Post>, used: Counts)
    ensures var used' := PassSeenAll(b, page, used);
            forall s: Stream :: used'.Of(s) < |b.Of(s)| ==> b.Of(s)[used'.Of(s)].id !in Ids(page)
  {
    var used' := PassSeenAll(b, page, used);
    forall s: Stream | used'.Of(s) < |b.Of(s)| ensures b.Of(s)[used'.Of(s)].id !in Ids(page) {
      assert used'.Of(s) == PassSeen(page, b.Of(s), used.Of(s));
    }
  }

  lemma ActKeeps(b: Batches, cfg: Config, st: State)
    requires Inv(b, cfg, st) && !Finished(cfg, st)
    requires forall s: Stream :: st.used.Of(s) < |b.Of(s)| ==> b.Of(s)[st.used.Of(s)].id !in Ids(st.page)
    ensures Inv(b, cfg, Act(b, cfg, st))
  {
    match Choose(b, cfg, st.page, st.used, st.exploreTurn) {
      case Take(s) => TakeKeeps(b, cfg, st, s);
      case Skip(s) =>
        assert !Open(st.page, b.Of(s), st.used.Of(s), cfg.Cap());
        SkipKeeps(b, cfg, st, s);
      case NothingLeft =>
    }
  }

  lemma {:induction false} RunKeeps(b: Batches, cfg: Config, st: State)
    requires Inv(b, cfg, st)
    ensures Inv(b, cfg, Run(b, cfg, st)) && Finished(cfg, Run(b, cfg, st))
    decreases Remaining(b, st)
  {
    if !Finished(cfg, st) {
      StepProgress(b, cfg, st);
      StepKeeps(b, cfg, st);
      RunKeeps(b, cfg, Step(b, cfg, st));
    }
  }

  lemma MergeInvariant(b: Batches, cfg: Config)
    ensures Inv(b, cfg, Merge(b, cfg)) && Finished(cfg, Merge(b, cfg))
  {
    StartHolds(b, cfg);
    RunKeeps(b, cfg, START);
  }

  lemma StartHolds(b: Batches, cfg: Config)
    ensures Inv(b, cfg, START)
  {
    forall s: Stream ensures SettledUpTo([], b.Of(s), 0, cfg.Cap()) {}
    forall a ensures |AuthorIds([], a)| == 0 { assert AuthorIds([], a) == {}; }
  }

  // ---------- no post is lost silently ----------

  /** Whatever the streams hold and wherever the loop stops: every item that was used up is on
      the page, by id, or its author fills the cap there; each slot shows a used-up item of its
      stream, tagged with it, and the items of one stream keep their order. */
  lemma NoSilentLoss(b: Batches, cfg: Config)
    ensures var end := Merge(b, cfg);
            && (forall s: Stream, i :: 0 <= i < end.used.Of(s) ==>
                  i < |b.Of(s)|
                  && (b.Of(s)[i].id in Ids(end.page) || |AuthorIds(end.page, b.Of(s)[i].author)| == cfg.Cap()))
            && |end.picks| == |end.page|
            && (forall k :: 0 <= k < |end.page| ==> PickedFrom(b, end.used, end.picks[k], end.page[k]))
            && KeepsStreamOrder(end.picks)
            && DistinctIds(end.page) && (forall a :: |AuthorIds(end.page, a)| <= cfg.Cap())
  {
    MergeInvariant(b, cfg);
    var end := Merge(b, cfg);
    forall s: Stream, i | 0 <= i < end.used.Of(s)
      ensures i < |b.Of(s)| && (b.Of(s)[i].id in Ids(end.page) || |AuthorIds(end.page, b.Of(s)[i].author)| == cfg.Cap())
    {
      assert SettledUpTo(end.page, b.Of(s), end.used.Of(s), cfg.Cap());
      assert i < |b.Of(s)|;
      assert Settled(end.page, b.Of(s)[i], cfg.Cap());
    }
  }

  // ---------- the exact size of a page ----------

  function Authors(posts: seq<Post>): set<string> {
    set p | p in posts :: p.author
  }

  function Min(a: int, b: int): int { if a < b then a else b }

  /** How many slots each author can fill: the cap, or all posts the author has. */
  ghost function Shares(posts: seq<Post>, cap: nat): map<string, nat> {
    map a | a in Authors(posts) :: Min(cap, |AuthorIds(posts, a)|)
  }

  /** The largest page without repetitions that respects the cap. */
  ghost function Room(posts: seq<Post>, cap: nat): nat {
    Total(Shares(posts, cap))
  }

  ghost function Tally(page: seq<Post>, authors: set<string>): map<string, nat> {
    map a | a in authors :: |AuthorIds(page, a)|
  }

  lemma TallyAppend(front: seq<Post>, p: Post, authors: set<string>)
    requires p.id !in Ids(front) && p.author in authors
    ensures Tally(front + [p], authors) == Tally(front, authors)[p.author := Tally(front, authors)[p.author] + 1]
  {
    var before, after := Tally(front, authors), Tally(front + [p], authors);
    forall a | a in authors ensures after[a] == before[a] + (if a == p.author then 1 else 0) {
      AppendedCount(front, p, a);
    }
  }

  lemma {:induction false} TallyTotal(page: seq<Post>, authors: set<string>)
    requires DistinctIds(page) && Authors(page) <= authors
    ensures Total(Tally(page, authors)) == |page|
  {
    if page == [] {
      TotalZero(Tally(page, authors));
    } else {
      var front, p := page[..|page| - 1], page[|page| - 1];
      assert page == front + [p];
      assert p.author in authors by { assert p in page; assert p.author in Authors(page); }
      assert Authors(front) <= Authors(page);
      TallyTotal(front, authors);
      TallyAppend(front, p, authors);
      TotalBump(Tally(front, authors), p.author);
    }
  }

  /** Every post of the page stands for one of the input posts. */
  ghost predicate Drawn(page: seq<Post>, all: seq<Post>) {
    forall p :: p in page ==> exists q :: q in all && q.id == p.id && q.author == p.author
  }

  ghost predicate AllSettled(page: seq<Post>, all: seq<Post>, cap: nat) {
    forall p :: p in all ==> Settled(page, p, cap)
  }

  lemma PageIsDrawn(b: Batches, st: State)
    requires Linked(b, st)
    ensures Drawn(st.page, b.All())
  {
    forall p | p in st.page ensures exists q :: q in b.All() && q.id == p.id && q.author == p.author {
      var k :| 0 <= k < |st.page| && st.page[k] == p;
      assert PickedFrom(b, st.used, st.picks[k], p);
      var q := b.Of(st.picks[k].stream)[st.picks[k].index];
      assert q in b.Of(st.picks[k].stream);
      assert q in b.All();
    }
  }

  lemma DrawnIds(page: seq<Post>, all: seq<Post>, a: string)
    requires Drawn(page, all)
    ensures AuthorIds(page, a) <= AuthorIds(all, a) && |AuthorIds(page, a)| <= |AuthorIds(all, a)|
  {
    SubsetSize(AuthorIds(page, a), AuthorIds(all, a));
  }

  /** An author of whom everything is settled has taken the whole share. */
  lemma SettledShare(page: seq<Post>, all: seq<Post>, cap: nat, a: string)
    requires WithinCap(page, cap) && Drawn(page, all) && IdsDetermineAuthors(all) && AllSettled(page, all, cap)
    ensures |AuthorIds(page, a)| == Min(cap, |AuthorIds(all, a)|)
  {
    var onPage := AuthorIds(page, a);
    DrawnIds(page, all, a);
    if |onPage| < cap {
      forall id | id in AuthorIds(all, a) ensures id in onPage {
        var q :| q in all && q.author == a && q.id == id;
        assert Settled(page, q, cap);
        var p :| p in page && p.id == id;
        assert p.author == a;
      }
      assert onPage == AuthorIds(all, a);
    }
  }

  /** An unsettled post shows a share that is not used up. */
  lemma UnsettledShare(page: seq<Post>, all: seq<Post>, cap: nat, p: Post)
    requires Drawn(page, all) && p in all && !Settled(page, p, cap)
    ensures |AuthorIds(page, p.author)| < Min(cap, |AuthorIds(all, p.author)|)
  {
    DrawnIds(page, all, p.author);
    assert p.id in AuthorIds(all, p.author);
    assert p.id !in AuthorIds(page, p.author) by { AppendedPost(page, p); }
    SubsetSize(AuthorIds(page, p.author), AuthorIds(all, p.author));
  }

  lemma TallyBelowShares(page: seq<Post>, all: seq<Post>, cap: nat)
    requires WithinCap(page, cap) && Drawn(page, all) && IdsDetermineAuthors(all)
    ensures var mine, shares := Tally(page, Authors(all)), Shares(all, cap);
            && (forall a :: a in mine ==> mine[a] <= shares[a])
            && ((exists a :: a in mine && mine[a] < shares[a]) <==> !AllSettled(page, all, cap))
  {
    var mine, shares := Tally(page, Authors(all)), Shares(all, cap);
    forall a | a in mine ensures mine[a] <= shares[a] { DrawnIds(page, all, a); }
    if AllSettled(page, all, cap) {
      forall a | a in mine ensures mine[a] == shares[a] { SettledShare(page, all, cap, a); }
    } else {
      var p :| p in all && !Settled(page, p, cap);
      UnsettledShare(page, all, cap, p);
      assert p.author in mine && mine[p.author] < shares[p.author];
    }
  }

  lemma DrawnSize(page: seq<Post>, all: seq<Post>, cap: nat)
    requires WithinCap(page, cap) && Drawn(page, all) && IdsDetermineAuthors(all)
    ensures |page| <= Room(all, cap)
    ensures |page| == Room(all, cap) <==> AllSettled(page, all, cap)
  {
    var mine, shares := Tally(page, Authors(all)), Shares(all, cap);
    assert Authors(page) <= Authors(all);
    TallyTotal(page, Authors(all));
    TallyBelowShares(page, all, cap);
    TotalMonotone(mine, shares);
    if AllSettled(page, all, cap) { TotalMonotone(shares, mine); }
  }

  /** The page never exceeds the bound, and it meets it exactly when it is full or nothing is left
      that could still have been put on it. */
  lemma PageSize(b: Batches, cfg: Config)
    requires cfg.limit >= 1 && IdsDetermineAuthors(b.All())
    ensures var page := Merge(b, cfg).page;
            && |page| <= Min(cfg.limit, Room(b.All(), cfg.Cap()))
            && (|page| == Min(cfg.limit, Room(b.All(), cfg.Cap())) <==>
                |page| == cfg.limit || AllSettled(page, b.All(), cfg.Cap()))
  {
    MergeInvariant(b, cfg);
    var end := Merge(b, cfg);
    PageIsDrawn(b, end);
    DrawnSize(end.page, b.All(), cfg.Cap());
  }

  lemma CoveredMeansSettled(b: Batches, page: seq<Post>, used: Counts, cap: nat)
    requires NothingLost(b, page, used, cap) && used.Covers(b)
    ensures AllSettled(page, b.All(), cap)
  {
    forall p | p in b.All() ensures Settled(page, p, cap) {
      var s, i := Locate(b, p);
      assert SettledUpTo(page, b.Of(s), used.Of(s), cap);
    }
  }

  /** Unless the loop gave up, the page has the exact size. It gives up only after using up
      `limit + 11` items more than the cap. */
  lemma ExactPageSize(b: Batches, cfg: Config)
    requires cfg.limit >= 1 && IdsDetermineAuthors(b.All())
    ensures !Merge(b, cfg).outcome.GaveUp? || |b.All()| <= cfg.limit + cfg.Cap() + 11 || cfg.limit <= cfg.Cap() ==>
              |Merge(b, cfg).page| == Min(cfg.limit, Room(b.All(), cfg.Cap()))
  {
    MergeInvariant(b, cfg);
    PageSize(b, cfg);
    var end := Merge(b, cfg);
    if end.used.Covers(b) {
      CoveredMeansSettled(b, end.page, end.used, cfg.Cap());
    }
  }

  lemma Locate(b: Batches, p: Post) returns (s: Stream, i: nat)
    requires p in b.All()
    ensures i < |b.Of(s)| && b.Of(s)[i] == p
  {
    if p in b.main { s := Main; } else if p in b.small { s := Small; } else { s := General; }
    i :| 0 <= i < |b.Of(s)| && b.Of(s)[i] == p;
  }
}
