/** What the reranking makes of a merged page, told without the functions that compute it: authors are spread apart
    place by place, an explore post is lifted, and the first place rotates. */
module FeedShown {
  import opened Posts
  import opened FeedRerank

  // ---------- spreading ----------

  /** The author is on one of the `w - 1` places before `i`. */
  predicate JustShown(s: seq<Post>, w: int, i: nat, author: string) {
    exists j :: 0 <= j < i && j < |s| && i - j < w && s[j].author == author
  }

  /** A post of the look-ahead, from place `i` itself on, that may go to place `i`. */
  predicate Fits(s: seq<Post>, w: int, i: nat, k: int) {
    i <= k < |s| && k - i < w && !JustShown(s, w, i, s[k].author)
  }

  predicate Exchanged(s: seq<Post>, r: seq<Post>, i: int, k: int) {
    && 0 <= i < |s| && 0 <= k < |s| && |r| == |s| && r[i] == s[k] && r[k] == s[i]
    && forall m :: 0 <= m < |s| && m != i && m != k ==> r[m] == s[m]
  }

  ghost predicate NearestFit(s: seq<Post>, w: int, i: nat, k: int) {
    Fits(s, w, i, k) && forall m :: i <= m < k ==> !Fits(s, w, i, m)
  }

  /** Place `i` takes the nearest post that fits, in exchange; if none does, it keeps its own. */
  ghost predicate PlaceSpread(s: seq<Post>, r: seq<Post>, w: int, i: nat) {
    || (exists k :: NearestFit(s, w, i, k) && Exchanged(s, r, i, k))
    || (r == s && forall k :: !Fits(s, w, i, k))
  }

  ghost predicate SpreadStep(stages: seq<seq<Post>>, w: int, i: int) {
    0 < i < |stages| ==> PlaceSpread(stages[i - 1], stages[i], w, i)
  }

  /** The places are spread one after the other. */
  ghost predicate SpreadInStages(s: seq<Post>, r: seq<Post>, w: int, stages: seq<seq<Post>>) {
    && |stages| == |s| && stages != [] && stages[0] == s && stages[|s| - 1] == r
    && forall i :: SpreadStep(stages, w, i)
  }

  ghost predicate IsSpread(s: seq<Post>, r: seq<Post>, w: int) {
    if w < 2 || |s| < 3 then r == s else exists stages :: SpreadInStages(s, r, w, stages)
  }

  lemma SameWindow(s: seq<Post>, w: nat, i: nat, author: string)
    requires i <= |s| && w >= 1
    ensures JustShown(s, w, i, author) <==> InWindow(s, WindowStart(i, w), i, author)
  {
    if JustShown(s, w, i, author) {
      var j :| 0 <= j < i && j < |s| && i - j < w && s[j].author == author;
      assert WindowStart(i, w) <= j;
    }
  }

  lemma NearestOtherFits(s: seq<Post>, w: nat, i: nat)
    requires 1 <= i < |s| && 2 <= w
    ensures var k := NearestOther(s, w, i, i);
            if k < |s| then NearestFit(s, w, i, k) else forall m :: !Fits(s, w, i, m)
  {
    NearestIsNearest(s, w, i, i);
    forall m | i <= m < |s|
      ensures JustShown(s, w, i, s[m].author) <==> InWindow(s, WindowStart(i, w), i, s[m].author)
    {
      SameWindow(s, w, i, s[m].author);
    }
  }

  /** One step exchanges the place with the first fitting one of the look-ahead, or changes nothing. */
  lemma StepSpreadsPlace(s: seq<Post>, w: nat, i: nat)
    requires 1 <= i < |s| && 2 <= w
    ensures PlaceSpread(s, SpreadAt(s, w, i), w, i)
  {
    var k := NearestOther(s, w, i, i);
    NearestOtherFits(s, w, i);
    if k < |s| { assert Exchanged(s, SpreadAt(s, w, i), i, k); }
  }

  lemma SpreadIsUnique(s: seq<Post>, r: seq<Post>, w: nat, i: nat)
    requires 1 <= i < |s| && 2 <= w && PlaceSpread(s, r, w, i)
    ensures r == SpreadAt(s, w, i)
  {
    NearestOtherFits(s, w, i);
    if k :| NearestFit(s, w, i, k) && Exchanged(s, r, i, k) {
      assert Fits(s, w, i, NearestOther(s, w, i, i));
    }
  }

  /** The page once the places up to `i` have been spread. */
  ghost function Stage(s: seq<Post>, w: nat, i: nat): (r: seq<Post>)
    requires i < |s| && 2 <= w
    ensures |r| == |s|
  {
    if i == 0 then s else SpreadAt(Stage(s, w, i - 1), w, i)
  }

  lemma NextStage(s: seq<Post>, w: nat, i: nat, before: seq<Post>)
    requires 0 < i < |s| && 2 <= w && before == Stage(s, w, i - 1)
    ensures SpreadFrom(Stage(s, w, i), w, i + 1) == SpreadFrom(before, w, i)
  {
    SpreadFromStep(before, w, i);
  }

  lemma {:induction false} StageLeads(s: seq<Post>, w: nat, i: nat)
    requires i < |s| && 2 <= w
    ensures SpreadFrom(Stage(s, w, i), w, i + 1) == SpreadFrom(s, w, 1)
  {
    if i > 0 {
      StageLeads(s, w, i - 1);
      NextStage(s, w, i, Stage(s, w, i - 1));
    }
  }

  lemma SpreadIsSpread(s: seq<Post>, w: int)
    ensures IsSpread(s, Spread(s, w), w)
  {
    if w >= 2 && |s| >= 3 {
      var stages := seq(|s|, i requires 0 <= i < |s| => Stage(s, w, i));
      forall i ensures SpreadStep(stages, w, i) {
        if 0 < i < |s| { StepSpreadsPlace(Stage(s, w, i - 1), w, i); }
      }
      StageLeads(s, w, |s| - 1);
      assert SpreadInStages(s, Spread(s, w), w, stages);
    }
  }

  lemma StageIsSpread(stages: seq<seq<Post>>, w: int, i: nat)
    requires 0 < i < |stages| && forall m :: SpreadStep(stages, w, m)
    ensures PlaceSpread(stages[i - 1], stages[i], w, i)
  {
    assert SpreadStep(stages, w, i);
  }

  lemma {:induction false} StagesAreUnique(s: seq<Post>, w: nat, stages: seq<seq<Post>>, i: nat)
    requires |stages| == |s| && 2 <= w && i < |s| && stages[0] == s && forall m :: SpreadStep(stages, w, m)
    ensures |stages[i]| == |s| && SpreadFrom(stages[i], w, i + 1) == SpreadFrom(s, w, 1)
  {
    if i > 0 {
      StagesAreUnique(s, w, stages, i - 1);
      StageIsSpread(stages, w, i);
      NextStageIsUnique(stages[i - 1], stages[i], w, i);
    }
  }

  lemma NextStageIsUnique(s: seq<Post>, r: seq<Post>, w: nat, i: nat)
    requires 1 <= i < |s| && 2 <= w && PlaceSpread(s, r, w, i)
    ensures |r| == |s| && SpreadFrom(r, w, i + 1) == SpreadFrom(s, w, i)
  {
    SpreadIsUnique(s, r, w, i);
    SpreadFromStep(s, w, i);
  }

  /** The description leaves no choice. */
  lemma SpreadIsExact(s: seq<Post>, r: seq<Post>, w: int)
    ensures IsSpread(s, r, w) <==> r == Spread(s, w)
  {
    SpreadIsSpread(s, w);
    if IsSpread(s, r, w) && w >= 2 && |s| >= 3 {
      var stages :| SpreadInStages(s, r, w, stages);
      StagesAreUnique(s, w, stages, |s| - 1);
    }
  }

  // ---------- where the look-ahead is cut off by the end of the page ----------

  /** Wherever the look-ahead reaches the end of the page: if the author of place `i` was just shown, then so were
      the authors of all posts from there on. */
  ghost predicate NoneFitsBehind(r: seq<Post>, w: nat, i: nat) {
    i < |r| && JustShown(r, w, i, r[i].author) ==> forall k :: i <= k < |r| ==> JustShown(r, w, i, r[k].author)
  }

  lemma SamePrefix(s: seq<Post>, t: seq<Post>, w: nat, i: nat, author: string)
    requires i <= |s| && i <= |t| && s[..i] == t[..i]
    ensures JustShown(s, w, i, author) <==> JustShown(t, w, i, author)
  {
    forall j | 0 <= j < i ensures s[j] == t[j] { assert s[..i][j] == t[..i][j]; }
  }

  lemma TailPosts(s: seq<Post>, r: seq<Post>, i: nat)
    requires |r| == |s| && i <= |s| && r[..i] == s[..i] && multiset(r) == multiset(s)
    ensures multiset(r[i..]) == multiset(s[i..])
  {
    assert r == r[..i] + r[i..] && s == s[..i] + s[i..];
    assert multiset(r[i..]) == multiset(r) - multiset(r[..i]);
    assert multiset(s[i..]) == multiset(s) - multiset(s[..i]);
  }

  /** Spreading the places from `i` on only moves posts from there on. */
  lemma TailKeepsPosts(s: seq<Post>, w: nat, i: nat)
    requires 1 <= i <= |s| && 2 <= w
    ensures SpreadFrom(s, w, i)[..i] == s[..i] && multiset(SpreadFrom(s, w, i)[i..]) == multiset(s[i..])
  {
    SpreadFromKeepsPrefix(s, w, i);
    SpreadFromKeepsPosts(s, w, i);
    TailPosts(s, SpreadFrom(s, w, i), i);
  }

  lemma NoneFits(s: seq<Post>, r: seq<Post>, w: nat, i: nat, k: nat)
    requires i <= k < |r| == |s| <= i + w && r[..i] == s[..i] && multiset(r[i..]) == multiset(s[i..])
    requires forall m :: !Fits(s, w, i, m)
    ensures JustShown(r, w, i, r[k].author)
  {
    assert r[i..][k - i] in multiset(r[i..]);
    assert r[k] in s[i..];
    var m :| 0 <= m < |s| - i && s[i..][m] == r[k];
    assert !Fits(s, w, i, i + m);
    SamePrefix(s, r, w, i, r[k].author);
  }

  /** The place itself is settled by its step. */
  lemma StepSettles(s: seq<Post>, w: nat, i: nat)
    requires 1 <= i < |s| && 2 <= w
    ensures SpreadFrom(s, w, i)[..i + 1] == SpreadAt(s, w, i)[..i + 1]
  {
    SpreadFromStep(s, w, i);
    SpreadFromKeepsPrefix(SpreadAt(s, w, i), w, i + 1);
  }

  lemma SettledFits(s: seq<Post>, s': seq<Post>, r: seq<Post>, w: nat, i: nat)
    requires i < |s| == |s'| == |r| && PlaceSpread(s, s', w, i) && r[..i + 1] == s'[..i + 1] && r[..i] == s[..i]
    requires JustShown(r, w, i, r[i].author)
    ensures forall m :: !Fits(s, w, i, m)
  {
    assert r[i] == r[..i + 1][i] == s'[i];
    SamePrefix(s, r, w, i, r[i].author);
  }

  lemma StepFitsBehind(s: seq<Post>, w: nat, i: nat)
    requires 1 <= i < |s| && 2 <= w && i + w >= |s|
    ensures NoneFitsBehind(SpreadFrom(s, w, i), w, i)
  {
    var r := SpreadFrom(s, w, i);
    StepSettles(s, w, i);
    StepSpreadsPlace(s, w, i);
    TailKeepsPosts(s, w, i);
    if JustShown(r, w, i, r[i].author) {
      SettledFits(s, SpreadAt(s, w, i), r, w, i);
      forall k | i <= k < |r| ensures JustShown(r, w, i, r[k].author) { NoneFits(s, r, w, i, k); }
    }
  }

  lemma {:induction false} SpreadFitsBehind(s: seq<Post>, w: nat, i: nat, m: nat)
    requires 1 <= i <= m < |s| && 2 <= w && m + w >= |s|
    ensures NoneFitsBehind(SpreadFrom(s, w, i), w, m)
    decreases |s| - i
  {
    if i == m {
      StepFitsBehind(s, w, i);
    } else {
      SpreadFromStep(s, w, i);
      SpreadFitsBehind(SpreadAt(s, w, i), w, i + 1, m);
    }
  }

  /** On any page and for any window, without a cap on authors. */
  lemma LastPlacesAreSpread(posts: seq<Post>, w: nat, i: nat)
    requires w >= 2 && |posts| >= 3 && i < |posts| <= i + w
    ensures NoneFitsBehind(Spread(posts, w), w, i)
  {
    if i > 0 { SpreadFitsBehind(posts, w, 1, i); }
  }

  // ---------- lifting an explore post ----------

  ghost predicate IsFirstExplore(posts: seq<Post>, j: int) {
    && 0 <= j < |posts| && posts[j].source == FromExplore
    && forall m :: 0 <= m < j ==> posts[m].source != FromExplore
  }

  /** `r` is `s` with the post at `j` put on the last of the top places; those between move down by one. */
  predicate PutUp(s: seq<Post>, r: seq<Post>, slots: int, j: int) {
    && 1 <= slots <= j < |s| == |r| && r[slots - 1] == s[j]
    && (forall m :: 0 <= m < |s| && (m < slots - 1 || m > j) ==> r[m] == s[m])
    && (forall m :: slots <= m <= j ==> r[m] == s[m - 1])
  }

  ghost predicate NeedsLift(s: seq<Post>, slots: int, j: int) {
    1 <= slots <= j && IsFirstExplore(s, j)
  }

  /** The first explore post goes to the last of the top places, if it stands behind them. */
  ghost predicate IsLifted(s: seq<Post>, r: seq<Post>, slots: int) {
    || (exists j :: NeedsLift(s, slots, j) && PutUp(s, r, slots, j))
    || (r == s && forall j :: !NeedsLift(s, slots, j))
  }

  lemma LiftedIsLifted(s: seq<Post>, slots: int)
    ensures IsLifted(s, Lifted(s, slots), slots)
  {
    var j := FirstExplore(s, 0);
    assert j < |s| ==> IsFirstExplore(s, j);
    if NeedsLift(s, slots, j) { MovedIsPutUp(s, slots, j); }
  }

  lemma MovedIsPutUp(s: seq<Post>, slots: int, j: nat)
    requires 1 <= slots <= j < |s|
    ensures PutUp(s, MoveUp(s, slots - 1, j), slots, j)
  {
  }

  /** The description leaves no choice. */
  lemma LiftIsExact(s: seq<Post>, r: seq<Post>, slots: int)
    ensures IsLifted(s, r, slots) <==> r == Lifted(s, slots)
  {
    LiftedIsLifted(s, slots);
    if IsLifted(s, r, slots) && r != s {
      var j :| NeedsLift(s, slots, j) && PutUp(s, r, slots, j);
      assert FirstExplore(s, 0) == j;
      ShiftIsMoveUp(s, r, slots - 1, j);
    }
  }

  // ---------- the first place ----------

  /** In round `n` the post of place `(n - 1) % k` leads, in exchange with the first; `k` is the number of top places
      that the page has. */
  predicate IsLed(s: seq<Post>, r: seq<Post>, round: int, slots: int) {
    var k := if slots < |s| then slots else |s|;
    if round >= 1 && k >= 2 then Exchanged(s, r, 0, (round - 1) % k) else r == s
  }

  /** Round one keeps the first post in front, and so does any round without two places to rotate. */
  lemma LeadIsExact(s: seq<Post>, r: seq<Post>, round: int, slots: int)
    ensures IsLed(s, r, round, slots) <==> r == Rotated(s, round, slots)
    ensures IsLed(s, r, 1, slots) <==> r == s
  {
    var k := if slots < |s| then slots else |s|;
    if k >= 2 {
      ExchangeIsSwap(s, r, 0, 0);
      if round >= 1 { ExchangeIsSwap(s, r, 0, (round - 1) % k); }
    }
  }

  lemma ExchangeIsSwap(s: seq<Post>, r: seq<Post>, i: nat, k: nat)
    requires i < |s| && k < |s|
    ensures Exchanged(s, r, i, k) <==> r == Swap(s, i, k)
    ensures i == k ==> Swap(s, i, k) == s
  {
    if Exchanged(s, r, i, k) {
      forall m | 0 <= m < |s| ensures r[m] == Swap(s, i, k)[m] {}
    }
  }

  // ---------- the page as it is shown ----------

  ghost predicate ShownBy(merged: seq<Post>, page: seq<Post>, window: int, topSlots: int, heroSlots: int,
                          followingOnly: bool, heroRound: int, spread: seq<Post>, lifted: seq<Post>)
  {
    && IsSpread(merged, spread, window)
    && (if followingOnly then lifted == spread else IsLifted(spread, lifted, topSlots))
    && IsLed(lifted, page, heroRound, heroSlots)
  }

  /** Spread, then lifted unless only followed authors are shown, then led by the post of the round. */
  ghost predicate Shown(merged: seq<Post>, page: seq<Post>, window: int, topSlots: int, heroSlots: int,
                        followingOnly: bool, heroRound: int)
  {
    exists spread, lifted ::
      ShownBy(merged, page, window, topSlots, heroSlots, followingOnly, heroRound, spread, lifted)
  }

  /** The page when nothing is lifted and the first place does not rotate. */
  lemma PlainPage(merged: seq<Post>, page: seq<Post>, window: nat, topSlots: int, heroSlots: int, followingOnly: bool,
                  heroRound: int)
    requires Shown(merged, page, window, topSlots, heroSlots, followingOnly, heroRound)
    requires window >= 2 && (followingOnly || topSlots < 1) && heroRound <= 0
    ensures page == Spread(merged, window) && multiset(page) == multiset(merged)
    ensures AtMostTwice(merged) ==>
              forall i :: 0 <= i && i + window <= |page| ==> !JustShown(page, window, i, page[i].author)
    ensures |page| >= 3 ==> forall i: nat :: i + window >= |page| ==> NoneFitsBehind(page, window, i)
  {
    var spread, lifted :|
      ShownBy(merged, page, window, topSlots, heroSlots, followingOnly, heroRound, spread, lifted);
    assert page == spread;
    SpreadIsExact(merged, page, window);
    SpreadKeepsPosts(merged, window);
    if AtMostTwice(merged) {
      SpreadSeparates(merged, window);
      forall i | 0 <= i && i + window <= |page| ensures !JustShown(page, window, i, page[i].author) {
        assert Separated(page, window, i);
        SameWindow(page, window, i, page[i].author);
      }
    }
    if |page| >= 3 {
      forall i: nat | i + window >= |page| ensures NoneFitsBehind(page, window, i) {
        if i < |page| { LastPlacesAreSpread(merged, window, i); }
      }
    }
  }

  /** A round exchanges the first post of the page without rounds with the post of the round. */
  lemma PageOfRound(merged: seq<Post>, page: seq<Post>, window: int, topSlots: int, heroSlots: int,
                    followingOnly: bool, heroRound: int)
    returns (base: seq<Post>)
    requires Shown(merged, page, window, topSlots, heroSlots, followingOnly, heroRound)
    ensures Shown(merged, base, window, topSlots, heroSlots, followingOnly, 0)
            && IsLed(base, page, heroRound, heroSlots)
  {
    var spread, lifted :|
      ShownBy(merged, page, window, topSlots, heroSlots, followingOnly, heroRound, spread, lifted);
    base := lifted;
    assert ShownBy(merged, base, window, topSlots, heroSlots, followingOnly, 0, spread, lifted);
  }

  /** Off the followed tab the top shows an explore post if the page has one, and at most one post has moved:
      the others stand as on the page where nothing is lifted. */
  lemma TopShowsExplore(merged: seq<Post>, page: seq<Post>, window: int, topSlots: int, heroSlots: int)
    requires Shown(merged, page, window, topSlots, heroSlots, false, 0) && topSlots >= 1
    ensures ShowsExplore(merged, 0, |merged|) ==> ShowsExplore(page, 0, topSlots)
    ensures exists base :: Shown(merged, base, window, 0, heroSlots, false, 0) && IsLifted(base, page, topSlots)
  {
    var spread, lifted :| ShownBy(merged, page, window, topSlots, heroSlots, false, 0, spread, lifted);
    assert page == lifted;
    assert ShownBy(merged, spread, window, 0, heroSlots, false, 0, spread, spread);
    SpreadIsExact(merged, spread, window);
    SpreadKeepsPosts(merged, window);
    LiftIsExact(spread, page, topSlots);
    LiftedTop(spread, topSlots);
    if i :| 0 <= i < |merged| && merged[i].source.FromExplore? {
      assert merged[i] in multiset(merged);
      assert merged[i] in spread;
      assert ShowsExplore(spread, 0, |spread|);
    }
  }

  /** The followed tab is never lifted. */
  lemma FollowedTabIsNotLifted(merged: seq<Post>, page: seq<Post>, window: int, topSlots: int, heroSlots: int,
                               heroRound: int)
    requires Shown(merged, page, window, topSlots, heroSlots, true, heroRound)
    ensures Shown(merged, page, window, 0, heroSlots, true, heroRound)
  {
    var spread, lifted :| ShownBy(merged, page, window, topSlots, heroSlots, true, heroRound, spread, lifted);
    assert ShownBy(merged, page, window, 0, heroSlots, true, heroRound, spread, lifted);
  }
}
