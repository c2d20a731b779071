/** Feed posts, reduced to the columns that paging and ranking look at. */
module Posts {
  import opened Basics

  datatype Source = NoSource | FromMain | FromExplore

  /** `score` is the fixed-point value of `feed_score` in millionths; `createdNano` is `created_at`. */
  datatype Post = Post(id: string, author: string, score: int, createdNano: Int64, source: Source)

  function Ids(posts: seq<Post>): set<string> {
    set p | p in posts :: p.id
  }

  /** The posts of one author, by id. */
  function AuthorIds(posts: seq<Post>, author: string): set<string> {
    set p | p in posts && p.author == author :: p.id
  }

  predicate DistinctIds(posts: seq<Post>) {
    forall i, j :: 0 <= i < j < |posts| ==> posts[i].id != posts[j].id
  }

  /** An id names one post, so it has one author. */
  predicate IdsDetermineAuthors(posts: seq<Post>) {
    forall p, q :: p in posts && q in posts && p.id == q.id ==> p.author == q.author
  }

  lemma AppendedPost(page: seq<Post>, p: Post)
    ensures Ids(page + [p]) == Ids(page) + {p.id}
    ensures forall a :: AuthorIds(page + [p], a) == AuthorIds(page, a) + (if p.author == a then {p.id} else {})
    ensures forall a :: AuthorIds(page, a) <= Ids(page)
  {
    assert forall q :: q in page + [p] <==> q in page || q == p;
  }

  lemma AppendedCount(page: seq<Post>, p: Post, a: string)
    requires p.id !in Ids(page)
    ensures |AuthorIds(page + [p], a)| == |AuthorIds(page, a)| + (if p.author == a then 1 else 0)
  {
    AppendedPost(page, p);
    assert AuthorIds(page + [p], a) == AuthorIds(page, a) + (if p.author == a then {p.id} else {});
  }
}
