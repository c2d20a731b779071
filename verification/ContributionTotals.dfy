/** What the row locks guarantee: award rows count exactly the posts that were answered with an
    award and never pass the limit, challenges are never overfull and nobody is in one twice. */
module ContributionTotals {
  import opened Contribution

  /** The call is about that record. */
  predicate IsAbout(c: Call, k: LockKey) {
    match k
    case AwardLock(challenge, user, day) => c.Award? && c.challenge == challenge && c.user == user && c.day == day
    case ChallengeLock(challenge) => c.Join? && c.challenge == challenge
  }

  /** Transaction `i` was answered so, on that record. */
  predicate Got(w: World, st: State, i: nat, k: LockKey, answer: Answer) {
    i < |w.calls| && i < |st.local| && IsAbout(w.calls[i], k) && st.local[i].phase == Committed(answer)
  }

  /** How many of the first `n` commits were answered so. */
  function Count(w: World, st: State, k: LockKey, answer: Answer, n: nat): nat
    requires n <= |st.commits|
  {
    if n == 0 then 0 else Count(w, st, k, answer, n - 1) + (if Got(w, st, st.commits[n - 1], k, answer) then 1 else 0)
  }

  /** The points of the first `n` commits that were awarded. */
  function Points(w: World, st: State, k: LockKey, n: nat): int
    requires n <= |st.commits|
  {
    if n == 0 then 0
    else Points(w, st, k, n - 1)
         + (if Got(w, st, st.commits[n - 1], k, Awarded) && w.calls[st.commits[n - 1]].Award?
            then w.calls[st.commits[n - 1]].points else 0)
  }

  /** What the first `n` commits make of a record. */
  function RecordAfter(w: World, st: State, k: LockKey, n: nat): Record
    requires n <= |st.commits|
  {
    Get(Replay(w, st.commits[..n]), k)
  }

  lemma RecordStep(w: World, st: State, k: LockKey, n: nat)
    requires 0 < n <= |st.commits| && AnswerOk(w, st, n - 1)
    ensures var i := st.commits[n - 1];
            if LockOf(w.calls[i]) == k
            then Serve(w, w.calls[i], RecordAfter(w, st, k, n - 1)).0 == RecordAfter(w, st, k, n)
                 && st.local[i].phase == Committed(Serve(w, w.calls[i], RecordAfter(w, st, k, n - 1)).1)
            else RecordAfter(w, st, k, n) == RecordAfter(w, st, k, n - 1)
  {
    assert st.commits[..n] == st.commits[..n - 1] + [st.commits[n - 1]];
    ReplayCommit(w, st.commits[..n - 1], st.commits[n - 1], k);
  }

  // ---------- awards ----------

  lemma {:induction false} RowCounts(w: World, st: State, k: LockKey, n: nat)
    requires AnswersOk(w, st) && k.AwardLock? && n <= |st.commits|
    ensures var row, first := RowOrZero(RecordAfter(w, st, k, n)), RowOrZero(Get(w.start, k));
            row.posts == first.posts + Count(w, st, k, Awarded, n) && row.points == first.points + Points(w, st, k, n)
  {
    if n == 0 {
      assert st.commits[..0] == [];
    } else {
      assert AnswerOk(w, st, n - 1);
      RowCounts(w, st, k, n - 1);
      RecordStep(w, st, k, n);
    }
  }

  /** In every run an award row that nobody has locked holds as many posts as calls were answered
      with an award, on top of what it held at the start, and the sum of their points. */
  lemma AwardRowsCountAnswers(w: World, steps: seq<Step>, k: LockKey)
    requires k.AwardLock? && k !in Exec(w, steps).holder
    ensures var st := Exec(w, steps);
            var row, first := RowOrZero(Get(st.db, k)), RowOrZero(Get(w.start, k));
            && row.posts == first.posts + Count(w, st, k, Awarded, |st.commits|)
            && row.points == first.points + Points(w, st, k, |st.commits|)
  {
    var st := Exec(w, steps);
    Serializable(w, steps);
    EveryRun(w, steps);
    RowCounts(w, st, k, |st.commits|);
    assert st.commits[..|st.commits|] == st.commits;
  }

  /** Every call on the award row has a limit of at most `limit`. */
  predicate Limited(w: World, k: LockKey, limit: int) {
    forall i :: 0 <= i < |w.calls| && LockOf(w.calls[i]) == k && w.calls[i].Award? ==> w.calls[i].maxPosts <= limit
  }

  lemma {:induction false} ReplayIsLimited(w: World, commits: seq<nat>, k: LockKey, limit: int)
    requires k.AwardLock? && Limited(w, k, limit) && RowOrZero(Get(w.start, k)).posts <= limit
    ensures RowOrZero(Get(Replay(w, commits), k)).posts <= limit
  {
    if commits != [] {
      var before, i := commits[..|commits| - 1], commits[|commits| - 1];
      assert commits == before + [i];
      ReplayIsLimited(w, before, k, limit);
      if i < |w.calls| { ReplayCommit(w, before, i, k); }
    }
  }

  /** At no moment of any run, not even in the middle of a transaction, is a daily limit passed. */
  lemma AwardsAreLimited(w: World, steps: seq<Step>, k: LockKey, limit: int)
    requires k.AwardLock? && Limited(w, k, limit) && 0 <= limit && RowOrZero(Get(w.start, k)).posts <= limit
    ensures RowOrZero(Get(Exec(w, steps).db, k)).posts <= limit
  {
    var st := Exec(w, steps);
    EveryRun(w, steps);
    ReplayIsLimited(w, st.commits, k, limit);
    assert KeyOk(w, st, k);
    if k in st.holder { assert LocalOk(w, st, st.holder[k]); }
  }

  /** The award call that commits as `n`-th is answered with an award exactly when it may have any and the row has
      fewer posts than its limit: those it held at the start and one for each award answered before. */
  lemma AwardsAreAnswered(w: World, steps: seq<Step>, n: nat)
    requires var st := Exec(w, steps); n < |st.commits| && st.commits[n] < |w.calls| && w.calls[st.commits[n]].Award?
    ensures var st := Exec(w, steps);
            var i := st.commits[n];
            var c := w.calls[i];
            var k := AwardLock(c.challenge, c.user, c.day);
            var posts := RowOrZero(Get(w.start, k)).posts + Count(w, st, k, Awarded, n);
            i < |st.local|
            && st.local[i].phase == Committed(if c.maxPosts > 0 && posts < c.maxPosts then Awarded else Refused)
  {
    var st := Exec(w, steps);
    EveryRun(w, steps);
    assert AnswerOk(w, st, n);
    var c := w.calls[st.commits[n]];
    RowCounts(w, st, AwardLock(c.challenge, c.user, c.day), n);
  }

  /** How many of the first `n` commits are calls on the record. */
  function Served(w: World, st: State, k: LockKey, n: nat): nat
    requires n <= |st.commits|
  {
    if n == 0 then 0
    else Served(w, st, k, n - 1)
         + (if st.commits[n - 1] < |w.calls| && LockOf(w.calls[st.commits[n - 1]]) == k then 1 else 0)
  }

  /** Every call on the award row has the same limit. */
  predicate SameLimit(w: World, k: LockKey, limit: int) {
    forall i :: 0 <= i < |w.calls| && LockOf(w.calls[i]) == k && w.calls[i].Award? ==> w.calls[i].maxPosts == limit
  }

  lemma {:induction false} RowFillsUp(w: World, st: State, k: LockKey, limit: int, n: nat)
    requires AnswersOk(w, st) && k.AwardLock? && SameLimit(w, k, limit) && n <= |st.commits| && 0 < limit
    requires RowOrZero(Get(w.start, k)).posts <= limit
    ensures var all := RowOrZero(Get(w.start, k)).posts + Served(w, st, k, n);
            RowOrZero(RecordAfter(w, st, k, n)).posts == if all <= limit then all else limit
  {
    if n == 0 {
      assert st.commits[..0] == [];
    } else {
      assert AnswerOk(w, st, n - 1);
      RowFillsUp(w, st, k, limit, n - 1);
      RecordStep(w, st, k, n);
    }
  }

  /** With one limit for all, exactly the first calls to commit are awarded, until the limit is
      reached: none is lost and none is let through too many. */
  lemma FirstCallsAreAwarded(w: World, steps: seq<Step>, k: LockKey, limit: int, n: nat)
    requires var st := Exec(w, steps);
             n < |st.commits| && st.commits[n] < |w.calls| && LockOf(w.calls[st.commits[n]]) == k
    requires k.AwardLock? && SameLimit(w, k, limit) && RowOrZero(Get(w.start, k)).posts <= limit
    ensures var st := Exec(w, steps);
            Got(w, st, st.commits[n], k, Awarded) <==>
            0 < limit && RowOrZero(Get(w.start, k)).posts + Served(w, st, k, n) < limit
  {
    var st := Exec(w, steps);
    EveryRun(w, steps);
    assert AnswerOk(w, st, n);
    RecordStep(w, st, k, n + 1);
    if 0 < limit { RowFillsUp(w, st, k, limit, n); }
  }

  // ---------- joins ----------

  /** Every join of the challenge has a limit of at most `limit`. */
  predicate Bounded(w: World, k: LockKey, limit: int) {
    forall i :: 0 <= i < |w.calls| && LockOf(w.calls[i]) == k && w.calls[i].Join? ==>
                  w.calls[i].maxParticipants.Some? && w.calls[i].maxParticipants.value <= limit
  }

  lemma ServeJoin(w: World, c: Call, r: Record, limit: int)
    requires c.Join? && r.Members? && |r.users| <= limit
    requires c.maxParticipants.Some? && c.maxParticipants.value <= limit
    ensures |UsersOf(Serve(w, c, r).0)| <= limit
  {
  }

  lemma {:induction false} ReplayIsBounded(w: World, commits: seq<nat>, k: LockKey, limit: int)
    requires k.ChallengeLock? && Bounded(w, k, limit) && |UsersOf(Get(w.start, k))| <= limit
    ensures |UsersOf(Get(Replay(w, commits), k))| <= limit
  {
    if commits != [] {
      var before, i := commits[..|commits| - 1], commits[|commits| - 1];
      assert commits == before + [i];
      ReplayIsBounded(w, before, k, limit);
      if i < |w.calls| {
        ReplayCommit(w, before, i, k);
        if LockOf(w.calls[i]) == k { ServeJoin(w, w.calls[i], Get(Replay(w, before), k), limit); }
      }
    }
  }

  /** At no moment of any run has a challenge more members than the joins allow. */
  lemma ChallengesAreNeverOverfull(w: World, steps: seq<Step>, k: LockKey, limit: int)
    requires k.ChallengeLock? && Bounded(w, k, limit) && |UsersOf(Get(w.start, k))| <= limit
    ensures |UsersOf(Get(Exec(w, steps).db, k))| <= limit
  {
    var st := Exec(w, steps);
    EveryRun(w, steps);
    ReplayIsBounded(w, st.commits, k, limit);
    assert KeyOk(w, st, k);
    if k in st.holder {
      var i := st.holder[k];
      assert LocalOk(w, st, i);
      ServeJoin(w, w.calls[i], Base(w, st, k), limit);
    }
  }

  /** A join that succeeds adds its user, who was not there; nothing else changes the members. */
  lemma MembersStep(w: World, st: State, k: LockKey, n: nat)
    requires 0 < n <= |st.commits| && AnswerOk(w, st, n - 1) && k.ChallengeLock?
    ensures var i, users := st.commits[n - 1], UsersOf(RecordAfter(w, st, k, n - 1));
            if Got(w, st, i, k, Joined)
            then w.calls[i].user !in users && UsersOf(RecordAfter(w, st, k, n)) == users + {w.calls[i].user}
            else UsersOf(RecordAfter(w, st, k, n)) == users
  {
    RecordStep(w, st, k, n);
  }

  lemma {:induction false} MembersCount(w: World, st: State, k: LockKey, n: nat)
    requires AnswersOk(w, st) && k.ChallengeLock? && n <= |st.commits|
    ensures |UsersOf(RecordAfter(w, st, k, n))| == |UsersOf(Get(w.start, k))| + Count(w, st, k, Joined, n)
  {
    if n == 0 {
      assert st.commits[..0] == [];
    } else {
      assert AnswerOk(w, st, n - 1);
      MembersCount(w, st, k, n - 1);
      MembersStep(w, st, k, n);
    }
  }

  /** Members are never lost. */
  lemma {:induction false} MembersStay(w: World, st: State, k: LockKey, m: nat, n: nat)
    requires AnswersOk(w, st) && k.ChallengeLock? && m <= n <= |st.commits|
    ensures UsersOf(RecordAfter(w, st, k, m)) <= UsersOf(RecordAfter(w, st, k, n))
  {
    if m < n {
      assert AnswerOk(w, st, n - 1);
      MembersStay(w, st, k, m, n - 1);
      MembersStep(w, st, k, n);
    }
  }

  /** The user was a member at the start, or one of the first `n` commits was a join of theirs that succeeded. */
  ghost predicate IsMember(w: World, st: State, k: LockKey, user: string, n: nat)
    requires n <= |st.commits|
  {
    || user in UsersOf(Get(w.start, k))
    || exists m :: 0 <= m < n && Got(w, st, st.commits[m], k, Joined) && w.calls[st.commits[m]].user == user
  }

  lemma {:induction false} MembersAreHistory(w: World, st: State, k: LockKey, user: string, n: nat)
    requires AnswersOk(w, st) && k.ChallengeLock? && n <= |st.commits|
    ensures user in UsersOf(RecordAfter(w, st, k, n)) <==> IsMember(w, st, k, user, n)
  {
    if n == 0 {
      assert st.commits[..0] == [];
    } else {
      assert AnswerOk(w, st, n - 1);
      MembersAreHistory(w, st, k, user, n - 1);
      MembersStep(w, st, k, n);
    }
  }

  /** Who is in a challenge that nobody has locked. */
  lemma MembersAtRest(w: World, steps: seq<Step>, k: LockKey, user: string)
    requires k.ChallengeLock? && k !in Exec(w, steps).holder
    ensures var st := Exec(w, steps);
            user in UsersOf(Get(st.db, k)) <==> IsMember(w, st, k, user, |st.commits|)
  {
    var st := Exec(w, steps);
    EveryRun(w, steps);
    Serializable(w, steps);
    MembersAreHistory(w, st, k, user, |st.commits|);
    assert st.commits[..|st.commits|] == st.commits;
  }

  /** The join that commits as `n`-th is answered: that there is no such challenge, or else that its user is a member
      already, or else that the challenge is full, which it is exactly when those in it at the start and those who
      joined before reach the maximum, if there is one; or else it succeeds. */
  lemma JoinsAreAnswered(w: World, steps: seq<Step>, n: nat)
    requires var st := Exec(w, steps); n < |st.commits| && st.commits[n] < |w.calls| && w.calls[st.commits[n]].Join?
    ensures var st := Exec(w, steps);
            var i := st.commits[n];
            var c := w.calls[i];
            var k := ChallengeLock(c.challenge);
            var members := |UsersOf(Get(w.start, k))| + Count(w, st, k, Joined, n);
            i < |st.local|
            && st.local[i].phase == Committed(
                 if c.challenge !in w.challenges then NoSuchChallenge
                 else if IsMember(w, st, k, c.user, n) then AlreadyJoined
                 else if c.maxParticipants.Some? && c.maxParticipants.value <= members then LimitHit
                 else Joined)
  {
    var st := Exec(w, steps);
    EveryRun(w, steps);
    assert AnswerOk(w, st, n);
    var c := w.calls[st.commits[n]];
    MembersAreHistory(w, st, ChallengeLock(c.challenge), c.user, n);
    MembersCount(w, st, ChallengeLock(c.challenge), n);
  }

  /** A join succeeds only for somebody who is not a member, so that no user is added twice, and a
      challenge that nobody has locked has one member more for each join that succeeded. */
  lemma NobodyJoinsTwice(w: World, steps: seq<Step>, k: LockKey)
    requires k.ChallengeLock?
    ensures var st := Exec(w, steps);
            && (forall m, n :: 0 <= m < n < |st.commits|
                               && Got(w, st, st.commits[m], k, Joined) && Got(w, st, st.commits[n], k, Joined) ==>
                                 w.calls[st.commits[m]].user != w.calls[st.commits[n]].user)
            && (forall n :: 0 <= n < |st.commits| && Got(w, st, st.commits[n], k, Joined) ==>
                              w.calls[st.commits[n]].user !in UsersOf(Get(w.start, k)))
            && (k !in st.holder ==>
                  |UsersOf(Get(st.db, k))| == |UsersOf(Get(w.start, k))| + Count(w, st, k, Joined, |st.commits|))
  {
    var st := Exec(w, steps);
    EveryRun(w, steps);
    Serializable(w, steps);
    forall n | 0 <= n < |st.commits| && Got(w, st, st.commits[n], k, Joined)
      ensures w.calls[st.commits[n]].user !in UsersOf(Get(w.start, k))
    {
      assert AnswerOk(w, st, n) && st.commits[..0] == [];
      MembersStep(w, st, k, n + 1);
      MembersStay(w, st, k, 0, n);
    }
    forall m, n | 0 <= m < n < |st.commits| && Got(w, st, st.commits[m], k, Joined)
                  && Got(w, st, st.commits[n], k, Joined)
      ensures w.calls[st.commits[m]].user != w.calls[st.commits[n]].user
    {
      assert AnswerOk(w, st, m) && AnswerOk(w, st, n);
      MembersStep(w, st, k, m + 1);
      MembersStep(w, st, k, n + 1);
      MembersStay(w, st, k, m + 1, n);
    }
    MembersCount(w, st, k, |st.commits|);
    assert st.commits[..|st.commits|] == st.commits;
  }
}
