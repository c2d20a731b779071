/** Streams to show things with: posts with falling scores, all of one time, with ids that are one letter
    repeated. */
module FeedSamples {
  import opened Ordering
  import opened Posts
  import opened FeedPaging

  function Label(letter: char, k: nat): (id: string)
    ensures |id| == k + 1 && forall i :: 0 <= i <= k ==> id[i] == letter
  {
    if k == 0 then [letter] else [letter] + Label(letter, k - 1)
  }

  lemma {:induction false} LabelsAscend(letter: char, j: nat, k: nat)
    requires j < k
    ensures Less(Label(letter, j), Label(letter, k))
  {
    if j > 0 {
      LabelsAscend(letter, j - 1, k - 1);
      assert Label(letter, j)[1..] == Label(letter, j - 1) && Label(letter, k)[1..] == Label(letter, k - 1);
    } else {
      assert Label(letter, 0)[1..] == "" && Label(letter, k)[1..] == Label(letter, k - 1);
    }
  }

  /** Every post by an author of its own, or all posts by `a`. */
  function Sample(letter: char, score: int, k: nat, own: bool): Post {
    Post(Label(letter, k), if own then Label(letter, k) else "a", score, 0, NoSource)
  }

  function Line(letter: char, top: int, n: nat, own: bool): (posts: seq<Post>)
    ensures |posts| == n && forall k :: 0 <= k < n ==> posts[k] == Sample(letter, top - k, k, own)
  {
    seq(n, (k: nat) => Sample(letter, top - k, k, own))
  }

  lemma LineIsRanked(letter: char, top: int, n: nat, own: bool)
    ensures Ranked(ByScore, Line(letter, top, n, own)) && Ranked(ByTime, Line(letter, top, n, own))
  {
    forall i, j | 0 <= i < j < n ensures Less(Line(letter, top, n, own)[i].id, Line(letter, top, n, own)[j].id) {
      LabelsAscend(letter, i, j);
    }
  }

  lemma LineIsDistinct(letter: char, top: int, n: nat, own: bool)
    ensures DistinctIds(Line(letter, top, n, own))
  {
    forall i, j | 0 <= i < j < n ensures Line(letter, top, n, own)[i].id != Line(letter, top, n, own)[j].id {
      assert |Line(letter, top, n, own)[i].id| == i + 1 && |Line(letter, top, n, own)[j].id| == j + 1;
    }
  }
}
