/** Reranking of a finished page: authors are spread apart, an explore post is lifted into the
    top slots, and the first slot rotates. No stage adds or loses a post. */
module FeedRerank {
  import opened Arithmetic
  import opened Basics
  import opened Posts

  function Swap(s: seq<Post>, i: nat, k: nat): (r: seq<Post>)
    requires i < |s| && k < |s|
    ensures |r| == |s|
  {
    s[i := s[k]][k := s[i]]
  }

  lemma SwapKeepsPosts(s: seq<Post>, i: nat, k: nat)
    requires i < |s| && k < |s|
    ensures multiset(Swap(s, i, k)) == multiset(s)
  {
    var t := s[i := s[k]];
    assert multiset(t) == multiset(s) - multiset{s[i]} + multiset{s[k]};
    assert multiset(t[k := s[i]]) == multiset(t) - multiset{t[k]} + multiset{s[i]};
  }

  // ---------- SpreadAuthors ----------

  /** The author is among positions `start..end`. */
  predicate InWindow(s: seq<Post>, start: nat, end: nat, author: string)
    requires start <= end <= |s|
  {
    exists j :: start <= j < end && s[j].author == author
  }

  function WindowStart(i: nat, w: nat): (r: nat)
    ensures w >= 1 ==> r <= i && i - r < w
  {
    if i + 1 < w then 0 else i + 1 - w
  }

  /** The first position from `k` on, before `i + w`, whose author is not among the `w - 1` before `i`;
      the end of the page if there is none. */
  function NearestOther(s: seq<Post>, w: nat, i: nat, k: nat): (r: nat)
    requires 1 <= i < |s| && i <= k && 2 <= w
    ensures r < |s| ==> k <= r < i + w
    decreases i + w - k
  {
    if k >= i + w || k >= |s| then |s|
    else if !InWindow(s, WindowStart(i, w), i, s[k].author) then k
    else NearestOther(s, w, i, k + 1)
  }

  lemma {:induction false} NearestIsNearest(s: seq<Post>, w: nat, i: nat, k: nat)
    requires 1 <= i < |s| && i <= k && 2 <= w
    ensures var r := NearestOther(s, w, i, k);
            && (r < |s| ==> !InWindow(s, WindowStart(i, w), i, s[r].author))
            && (forall m :: k <= m < r && m < i + w && m < |s| ==> InWindow(s, WindowStart(i, w), i, s[m].author))
            && (r >= |s| ==> forall m :: k <= m < i + w && m < |s| ==> InWindow(s, WindowStart(i, w), i, s[m].author))
    decreases i + w - k
  {
    if k < i + w && k < |s| && InWindow(s, WindowStart(i, w), i, s[k].author) { NearestIsNearest(s, w, i, k + 1); }
  }

  /** Position `i` takes the nearest post whose author was not just shown. */
  function SpreadAt(s: seq<Post>, w: nat, i: nat): (r: seq<Post>)
    requires 1 <= i < |s| && 2 <= w
    ensures |r| == |s| && r[..i] == s[..i]
  {
    var k := NearestOther(s, w, i, i);
    if k < |s| then Swap(s, i, k) else s
  }

  function SpreadFrom(s: seq<Post>, w: nat, i: nat): (r: seq<Post>)
    requires 1 <= i && 2 <= w
    ensures |r| == |s|
    decreases |s| - i
  {
    if i >= |s| then s else SpreadFrom(SpreadAt(s, w, i), w, i + 1)
  }

  function Spread(posts: seq<Post>, window: int): (r: seq<Post>)
    ensures |r| == |posts|
  {
    if window < 2 || |posts| < 3 then posts else SpreadFrom(posts, window, 1)
  }

  lemma SpreadAtKeepsPosts(s: seq<Post>, w: nat, i: nat)
    requires 1 <= i < |s| && 2 <= w
    ensures multiset(SpreadAt(s, w, i)) == multiset(s)
  {
    var k := NearestOther(s, w, i, i);
    if k < |s| { SwapKeepsPosts(s, i, k); }
  }

  lemma {:induction false} SpreadFromKeepsPosts(s: seq<Post>, w: nat, i: nat)
    requires 1 <= i && 2 <= w
    ensures multiset(SpreadFrom(s, w, i)) == multiset(s)
    decreases |s| - i
  {
    if i < |s| {
      SpreadAtKeepsPosts(s, w, i);
      SpreadFromKeepsPosts(SpreadAt(s, w, i), w, i + 1);
    }
  }

  /** Spreading neither adds nor loses a post. */
  lemma SpreadKeepsPosts(posts: seq<Post>, window: int)
    ensures multiset(Spread(posts, window)) == multiset(posts)
  {
    if window >= 2 { SpreadFromKeepsPosts(posts, window, 1); }
  }

  method AuthorInWindow(posts: array<Post>, start: nat, end: nat, author: string) returns (found: bool)
    requires start <= end <= posts.Length
    ensures found == InWindow(posts[..], start, end, author)
  {
    for i := start to end
      invariant !InWindow(posts[..], start, i, author)
    {
      if posts[i].author == author { return true; }
    }
    return false;
  }

  method CopyOf(posts: seq<Post>) returns (out: array<Post>)
    ensures fresh(out) && out[..] == posts
  {
    out := new Post[|posts|](i requires 0 <= i < |posts| => posts[i]);
  }

  method SpreadAuthors(posts: seq<Post>, window: int) returns (res: seq<Post>)
    ensures res == Spread(posts, window)
  {
    if window < 2 || |posts| < 3 { return posts; }
    var out := CopyOf(posts);
    for i := 1 to out.Length
      invariant SpreadFrom(out[..], window, i) == SpreadFrom(posts, window, 1)
    {
      SpreadOne(out, window, i);
    }
    res := out[..];
  }

  /** The body of the loop of `SpreadAuthors`. */
  method SpreadOne(out: array<Post>, window: nat, i: nat)
    requires 1 <= i < out.Length && 2 <= window
    modifies out
    ensures out[..] == SpreadAt(old(out[..]), window, i)
  {
    ghost var s := out[..];
    var start := if i + 1 < window then 0 else i - window + 1;
    var clash := AuthorInWindow(out, start, i, out[i].author);
    if !clash { assert s[i := s[i]] == s; return; }
    var limit := if i + window > out.Length then out.Length else i + window;
    var k := i + 1;
    while k < limit
      invariant i < k <= limit && out[..] == s
      invariant NearestOther(s, window, i, i) == NearestOther(s, window, i, k)
    {
      var taken := AuthorInWindow(out, start, i, out[k].author);
      if !taken {
        out[i], out[k] := out[k], out[i];
        return;
      }
      k := k + 1;
    }
  }

  // ---------- spreading works when nobody has more than two posts ----------

  predicate HoldsThree(s: seq<Post>, p: nat, q: nat, r: nat) {
    && p < |s| && q < |s| && r < |s| && p != q && q != r && p != r
    && s[p].author == s[q].author == s[r].author
  }

  /** No author holds three positions. */
  ghost predicate AtMostTwice(s: seq<Post>) {
    forall p: nat, q: nat, r: nat :: !HoldsThree(s, p, q, r)
  }

  /** The `w - 1` posts before position `i` are by others. */
  predicate Separated(s: seq<Post>, w: nat, i: nat)
    requires i < |s| && w >= 1
  {
    !InWindow(s, WindowStart(i, w), i, s[i].author)
  }

  lemma {:induction false} DistinctSize(f: seq<int>)
    requires forall i, j :: 0 <= i < j < |f| ==> f[i] != f[j]
    ensures |set x | x in f| == |f|
  {
    if f != [] {
      DistinctSize(f[1..]);
      assert f == [f[0]] + f[1..];
      assert (set x | x in f) == {f[0]} + (set x | x in f[1..]);
    }
  }

  function Range(lo: int, hi: int): (r: set<int>)
    requires lo <= hi
    ensures |r| == hi - lo && forall x :: x in r <==> lo <= x < hi
    decreases hi - lo
  {
    if lo == hi then {} else Range(lo, hi - 1) + {hi - 1}
  }

  lemma Pigeonhole(f: seq<int>, lo: int, hi: int) returns (i: nat, j: nat)
    requires lo <= hi && |f| > hi - lo && forall k :: 0 <= k < |f| ==> lo <= f[k] < hi
    ensures i < j < |f| && f[i] == f[j]
  {
    if forall i, j :: 0 <= i < j < |f| ==> f[i] != f[j] {
      DistinctSize(f);
      SubsetSize((set x | x in f), Range(lo, hi));
      assert false;
    }
    i, j :| 0 <= i < j < |f| && f[i] == f[j];
  }

  ghost function PlaceOf(s: seq<Post>, start: nat, end: nat, author: string): (j: int)
    requires start <= end <= |s| && InWindow(s, start, end, author)
    ensures start <= j < end && s[j].author == author
  {
    var j :| start <= j < end && s[j].author == author; j
  }

  ghost function PlacesOf(s: seq<Post>, start: nat, i: nat, n: nat): (f: seq<int>)
    requires start <= i && i + n <= |s| && forall k :: i <= k < i + n ==> InWindow(s, start, i, s[k].author)
    ensures |f| == n && forall t :: 0 <= t < n ==> start <= f[t] < i && s[f[t]].author == s[i + t].author
  {
    if n == 0 then [] else PlacesOf(s, start, i, n - 1) + [PlaceOf(s, start, i, s[i + n - 1].author)]
  }

  /** Of `w` posts, one has an author who is not among the `w - 1` posts before them. */
  lemma OneIsFree(s: seq<Post>, w: nat, i: nat) returns (k: nat)
    requires AtMostTwice(s) && 2 <= w && 1 <= i && i + w <= |s|
    ensures i <= k < i + w && !InWindow(s, WindowStart(i, w), i, s[k].author)
  {
    var start := WindowStart(i, w);
    if forall k :: i <= k < i + w ==> InWindow(s, start, i, s[k].author) {
      var f := PlacesOf(s, start, i, w);
      var t, u := Pigeonhole(f, start, i);
      assert HoldsThree(s, f[t], i + t, i + u);
    }
    k :| i <= k < i + w && !InWindow(s, start, i, s[k].author);
  }

  lemma SwapKeepsAtMostTwice(s: seq<Post>, i: nat, k: nat)
    requires AtMostTwice(s) && i < |s| && k < |s|
    ensures AtMostTwice(Swap(s, i, k))
  {
    var t := Swap(s, i, k);
    forall p: nat, q: nat, r: nat ensures !HoldsThree(t, p, q, r) {
      assert !HoldsThree(s, SwapPlace(i, k, p), SwapPlace(i, k, q), SwapPlace(i, k, r));
    }
  }

  function SwapPlace(i: nat, k: nat, p: nat): nat {
    if p == i then k else if p == k then i else p
  }

  lemma {:induction false} SpreadFromKeepsPrefix(s: seq<Post>, w: nat, i: nat)
    requires 1 <= i <= |s| && 2 <= w
    ensures SpreadFrom(s, w, i)[..i] == s[..i]
    decreases |s| - i
  {
    if i < |s| {
      var s', r := SpreadAt(s, w, i), SpreadFrom(s, w, i);
      SpreadFromKeepsPrefix(s', w, i + 1);
      assert r[..i] == r[..i + 1][..i] == s'[..i + 1][..i] == s'[..i];
    }
  }

  lemma SeparatedByPrefix(s: seq<Post>, t: seq<Post>, w: nat, i: nat)
    requires i < |s| && i < |t| && s[..i + 1] == t[..i + 1] && w >= 1
    ensures Separated(s, w, i) == Separated(t, w, i)
  {
    forall j | 0 <= j <= i ensures s[j] == t[j] { assert s[..i + 1][j] == t[..i + 1][j]; }
  }

  lemma SpreadAtSeparates(s: seq<Post>, w: nat, i: nat)
    requires AtMostTwice(s) && 1 <= i < |s| && 2 <= w
    ensures AtMostTwice(SpreadAt(s, w, i))
    ensures i + w <= |s| ==> Separated(SpreadAt(s, w, i), w, i)
  {
    var s', k := SpreadAt(s, w, i), NearestOther(s, w, i, i);
    if k < |s| { SwapKeepsAtMostTwice(s, i, k); }
    if i + w <= |s| {
      var free := OneIsFree(s, w, i);
      NearestIsNearest(s, w, i, i);
      assert k < |s| && s'[i] == s[k];
      assert forall j :: 0 <= j < i ==> s'[j] == s[j];
    }
  }

  lemma StepSeparates(s: seq<Post>, w: nat, i: nat)
    requires AtMostTwice(s) && 1 <= i < |s| && 2 <= w && i + w <= |s|
    ensures Separated(SpreadFrom(s, w, i), w, i)
  {
    var s' := SpreadAt(s, w, i);
    SpreadAtSeparates(s, w, i);
    SpreadFromKeepsPrefix(s', w, i + 1);
    SeparatedByPrefix(s', SpreadFrom(s', w, i + 1), w, i);
  }

  lemma {:induction false} SpreadFromSeparates(s: seq<Post>, w: nat, i: nat, m: nat)
    requires 1 <= i <= m && 2 <= w && AtMostTwice(s) && m + w <= |s|
    ensures Separated(SpreadFrom(s, w, i), w, m)
    decreases |s| - i
  {
    if m == i {
      StepSeparates(s, w, i);
    } else {
      SpreadAtSeparates(s, w, i);
      SpreadFromStep(s, w, i);
      SpreadFromSeparates(SpreadAt(s, w, i), w, i + 1, m);
    }
  }

  lemma SpreadFromStep(s: seq<Post>, w: nat, i: nat)
    requires 1 <= i < |s| && 2 <= w
    ensures SpreadFrom(s, w, i) == SpreadFrom(SpreadAt(s, w, i), w, i + 1)
  {
  }

  /** When nobody has more than two posts, every position with a full look-ahead shows an author
      who is not among the `window - 1` posts before it. */
  lemma SpreadSeparates(posts: seq<Post>, window: nat)
    requires AtMostTwice(posts) && window >= 2
    ensures forall i :: 0 <= i && i + window <= |posts| ==> Separated(Spread(posts, window), window, i)
  {
    forall i | 0 <= i && i + window <= |posts| ensures Separated(Spread(posts, window), window, i) {
      if i > 0 { SpreadFromSeparates(posts, window, 1, i); }
    }
  }

  /** A page whose posts differ and whose authors hold at most two places, as the merge leaves it. */
  lemma CapTwoPages(posts: seq<Post>)
    requires DistinctIds(posts) && forall a :: |AuthorIds(posts, a)| <= 2
    ensures AtMostTwice(posts)
  {
    forall p: nat, q: nat, r: nat ensures !HoldsThree(posts, p, q, r) {
      if HoldsThree(posts, p, q, r) { ThreeIds(posts, p, q, r); }
    }
  }

  lemma ThreeIds(posts: seq<Post>, p: nat, q: nat, r: nat)
    requires DistinctIds(posts) && HoldsThree(posts, p, q, r)
    ensures |AuthorIds(posts, posts[p].author)| >= 3
  {
    var ids, three := AuthorIds(posts, posts[p].author), {posts[p].id, posts[q].id, posts[r].id};
    assert posts[p] in posts && posts[q] in posts && posts[r] in posts;
    assert three <= ids && |three| == 3;
    assert ids == three + (ids - three) && |ids| == 3 + |ids - three|;
  }

  // ---------- EnsureExploreInTop ----------

  predicate ShowsExplore(posts: seq<Post>, lo: nat, hi: nat) {
    exists i :: lo <= i < hi && i < |posts| && posts[i].source.FromExplore?
  }

  /** The first explore post from `i` on, or the end. */
  function FirstExplore(posts: seq<Post>, i: nat): (r: nat)
    requires i <= |posts|
    ensures i <= r <= |posts| && (r < |posts| ==> posts[r].source.FromExplore?)
    ensures forall m :: i <= m < r ==> !posts[m].source.FromExplore?
    decreases |posts| - i
  {
    if i == |posts| || posts[i].source.FromExplore? then i else FirstExplore(posts, i + 1)
  }

  function MoveUp(posts: seq<Post>, to: nat, from: nat): seq<Post>
    requires to <= from < |posts|
  {
    posts[..to] + [posts[from]] + posts[to..from] + posts[from + 1..]
  }

  function Lifted(posts: seq<Post>, slots: int): seq<Post> {
    if slots < 1 || |posts| <= slots then posts
    else
      var idx := FirstExplore(posts, 0);
      if idx < slots || idx == |posts| then posts else MoveUp(posts, slots - 1, idx)
  }

  method EnsureExploreInTop(posts: seq<Post>, slots: int) returns (res: seq<Post>)
    ensures res == Lifted(posts, slots)
  {
    if slots < 1 || |posts| <= slots { return posts; }
    for i := 0 to slots
      invariant FirstExplore(posts, 0) == FirstExplore(posts, i)
    {
      if posts[i].source.FromExplore? { return posts; }
    }
    var idx := slots;
    while idx < |posts| && !posts[idx].source.FromExplore?
      invariant slots <= idx <= |posts| && FirstExplore(posts, 0) == FirstExplore(posts, idx)
    {
      idx := idx + 1;
    }
    if idx == |posts| { return posts; }
    var out := CopyOf(posts);
    PullUp(out, slots - 1, idx);
    res := out[..];
  }

  /** Shifts `to..from` one place down and puts the post from behind in front of it. */
  method PullUp(out: array<Post>, to: nat, from: nat)
    requires to <= from < out.Length
    modifies out
    ensures out[..] == MoveUp(old(out[..]), to, from)
  {
    ghost var posts := out[..];
    var hero := out[from];
    var j := from;
    while j > to
      invariant to <= j <= from
      invariant forall m :: j < m <= from ==> out[m] == posts[m - 1]
      invariant forall m :: 0 <= m <= j ==> out[m] == posts[m]
      invariant forall m :: from < m < out.Length ==> out[m] == posts[m]
    {
      out[j] := out[j - 1];
      j := j - 1;
    }
    out[to] := hero;
    ShiftIsMoveUp(posts, out[..], to, from);
  }

  lemma ShiftIsMoveUp(posts: seq<Post>, out: seq<Post>, to: nat, from: nat)
    requires to <= from < |posts| == |out| && out[to] == posts[from]
    requires forall m :: to < m <= from ==> out[m] == posts[m - 1]
    requires forall m :: 0 <= m < to || from < m < |out| ==> out[m] == posts[m]
    ensures out == MoveUp(posts, to, from)
  {
    forall m | 0 <= m < |out| ensures out[m] == MoveUp(posts, to, from)[m] {}
  }

  function Without(posts: seq<Post>, i: nat): seq<Post>
    requires i < |posts|
  {
    posts[..i] + posts[i + 1..]
  }

  /** `res` is `posts` with the explore post at `j` put at `i` in front of the others. */
  predicate LiftsOne(posts: seq<Post>, res: seq<Post>, i: nat, j: nat) {
    && i < j < |posts| == |res| && posts[j].source.FromExplore? && res[i] == posts[j]
    && Without(res, i) == Without(posts, j)
  }

  /** After lifting, the top shows an explore post whenever the page has one; the posts are the same,
      those other than the lifted one keep their order, and a second lift changes nothing. */
  lemma LiftedTop(posts: seq<Post>, slots: int)
    ensures multiset(Lifted(posts, slots)) == multiset(posts)
    ensures slots >= 1 && ShowsExplore(posts, 0, |posts|) ==> ShowsExplore(Lifted(posts, slots), 0, slots)
    ensures Lifted(posts, slots) == posts || exists i, j :: LiftsOne(posts, Lifted(posts, slots), i, j)
    ensures Lifted(Lifted(posts, slots), slots) == Lifted(posts, slots)
  {
    var res := Lifted(posts, slots);
    if slots >= 1 && |posts| > slots {
      var idx := FirstExplore(posts, 0);
      if slots <= idx < |posts| {
        MoveUpKeepsPosts(posts, slots - 1, idx);
        assert res[slots - 1].source.FromExplore?;
        assert FirstExplore(res, 0) < slots;
        assert LiftsOne(posts, res, slots - 1, idx);
      }
    }
  }

  lemma MoveUpKeepsPosts(posts: seq<Post>, to: nat, from: nat)
    requires to < from < |posts|
    ensures var res := MoveUp(posts, to, from);
            && multiset(res) == multiset(posts) && |res| == |posts| && res[to] == posts[from]
            && Without(res, to) == Without(posts, from)
  {
    var res := MoveUp(posts, to, from);
    assert posts == posts[..to] + posts[to..from] + [posts[from]] + posts[from + 1..];
    assert Without(posts, from) == posts[..to] + posts[to..from] + posts[from + 1..];
    assert Without(res, to) == posts[..to] + (posts[to..from] + posts[from + 1..]);
  }

  // ---------- RotateHeroTop ----------

  function HeroSlots(posts: seq<Post>, slots: int): int {
    if slots > |posts| then |posts| else slots
  }

  function Rotated(posts: seq<Post>, round: int, slots: int): seq<Post> {
    var k := HeroSlots(posts, slots);
    if round <= 0 || |posts| < 2 || k < 2 then posts
    else Swap(posts, 0, HeroIndex(round, k))
  }

  function HeroIndex(round: int, k: int): nat
    requires k >= 1
  {
    (round - 1) % k
  }

  method RotateHeroTop(posts: seq<Post>, round: int, slots: int) returns (res: seq<Post>)
    ensures res == Rotated(posts, round, slots)
  {
    if round <= 0 || |posts| < 2 { return posts; }
    var k := slots;
    if k > |posts| { k := |posts|; }
    if k < 2 { return posts; }
    var idx := (round - 1) % k;
    if idx == 0 { assert posts[0 := posts[0]] == posts; return posts; }
    var out := CopyOf(posts);
    out[0], out[idx] := out[idx], out[0];
    res := out[..];
  }

  /** Over `k` rounds in a row, each of the first `k` posts comes first exactly once, and a round only
      exchanges it with the old first post. */
  lemma EachHeroOnce(posts: seq<Post>, round: int, slots: int, j: nat) returns (turn: int)
    requires round >= 1 && j < HeroSlots(posts, slots)
    ensures var k := HeroSlots(posts, slots);
            && round <= turn < round + k
            && Rotated(posts, turn, slots) == Swap(posts, 0, j)
            && (forall other :: round <= other < round + k && other != turn ==> HeroIndex(other, k) != j)
  {
    var k := HeroSlots(posts, slots);
    var r := HeroIndex(round, k);
    turn := if j >= r then round + (j - r) else round + (j - r) + k;
    forall t | round <= t < round + k
      ensures HeroIndex(t, k) == if r + (t - round) < k then r + (t - round) else r + (t - round) - k
    {
      ModShift(round - 1, k, t - round);
    }
    if k == 1 { assert posts[0 := posts[0]] == posts; }
  }

  lemma RotationKeepsPosts(posts: seq<Post>, round: int, slots: int)
    ensures multiset(Rotated(posts, round, slots)) == multiset(posts)
  {
    var k := HeroSlots(posts, slots);
    if round > 0 && |posts| >= 2 && k >= 2 { SwapKeepsPosts(posts, 0, HeroIndex(round, k)); }
  }

  lemma ModShift(x: nat, k: nat, d: nat)
    requires k >= 1 && d < k
    ensures (x + d) % k == if x % k + d < k then x % k + d else x % k + d - k
  {
    var q, r := x / k, x % k;
    var s := if r + d < k then r + d else r + d - k;
    var q' := if r + d < k then q else q + 1;
    assert k * (q + 1) == k * q + k;
    assert x + d == k * q' + s;
    DivUnique(k, x + d, q', s);
  }
}
