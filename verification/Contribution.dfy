/** Daily awards and challenge joins: transactions that lock one row, look, and write. They run
    concurrently, one statement at a time; a transaction that fails is undone. */
module Contribution {
  import opened Basics

  /** What a transaction locks: the award row of a challenge, a user and a day, or a challenge row. */
  datatype LockKey = AwardLock(challenge: string, user: string, day: int) | ChallengeLock(challenge: string)

  datatype Call =
    | Award(challenge: string, user: string, day: int, maxPosts: int, points: int)
    | Join(challenge: string, user: string, maxParticipants: Option<int>)

  datatype Answer = Awarded | Refused | Joined | AlreadyJoined | LimitHit | NoSuchChallenge

  /** What is stored under a lock: perhaps an award row, or the members of a challenge. */
  datatype Record = NoRow | Row(posts: int, points: int) | Members(users: set<string>)

  type Db = map<LockKey, Record>

  function LockOf(c: Call): LockKey {
    if c.Award? then AwardLock(c.challenge, c.user, c.day) else ChallengeLock(c.challenge)
  }

  function Get(db: Db, k: LockKey): (r: Record)
    ensures k.ChallengeLock? <==> r.Members?
  {
    if k in db && (k.ChallengeLock? <==> db[k].Members?) then db[k]
    else if k.AwardLock? then NoRow else Members({})
  }

  /** The calls that are made, the challenges that exist, and the tables at the beginning. */
  datatype World = World(calls: seq<Call>, challenges: set<string>, start: Db)

  // ---------- one call alone ----------

  /** The award row, freshly inserted if there is none. */
  function RowOrZero(r: Record): Record {
    if r.Row? then r else Row(0, 0)
  }

  function UsersOf(r: Record): set<string> {
    if r.Members? then r.users else {}
  }

  predicate Full(c: Call, users: set<string>) {
    c.Join? && c.maxParticipants.Some? && |users| >= c.maxParticipants.value
  }

  /** The call is answered before it locks anything. */
  predicate Idle(w: World, c: Call) {
    match c
    case Award(_, _, _, maxPosts, _) => maxPosts <= 0
    case Join(challenge, _, _) => challenge !in w.challenges
  }

  /** What a call does to its record when nobody interferes, and what it answers. */
  function Serve(w: World, c: Call, r: Record): (Record, Answer) {
    match c
    case Award(_, _, _, maxPosts, points) =>
      var row := RowOrZero(r);
      if maxPosts <= 0 then (r, Refused)
      else if row.posts >= maxPosts then (row, Refused)
      else (Row(row.posts + 1, row.points + points), Awarded)
    case Join(challenge, user, _) =>
      if challenge !in w.challenges then (r, NoSuchChallenge)
      else if user in UsersOf(r) then (r, AlreadyJoined)
      else if Full(c, UsersOf(r)) then (r, LimitHit)
      else (Members(UsersOf(r) + {user}), Joined)
  }

  /** The committed calls one after the other. */
  function Replay(w: World, commits: seq<nat>): Db {
    if commits == [] then w.start else
      var before, i := Replay(w, commits[..|commits| - 1]), commits[|commits| - 1];
      if i < |w.calls| then
        var k := LockOf(w.calls[i]);
        before[k := Serve(w, w.calls[i], Get(before, k)).0]
      else before
  }

  // ---------- statement by statement ----------

  /** Where a transaction is. `Ready`: the award row has been inserted if it was missing.
      `Checked`: the user is not a member yet. `Counted`: there is room. A call that is refused has
      written nothing that counts, so that its rollback is recorded as a commit. */
  datatype Phase =
    | Start | Ready | Locked | Checked | Counted
    | Finished(answer: Answer) | Committed(answer: Answer) | Aborted

  /** `read` is the award row as it was read, `before` what a rollback restores. */
  datatype Local = Local(phase: Phase, read: Record, before: Record)

  datatype State = State(db: Db, holder: map<LockKey, nat>, local: seq<Local>, commits: seq<nat>)

  datatype Step = Statement(i: nat) | Commit(i: nat) | Abort(i: nat)

  function Init(w: World): State {
    State(w.start, map[], seq(|w.calls|, i => Local(Start, NoRow, NoRow)), [])
  }

  predicate Running(w: World, st: State, i: nat) {
    i < |w.calls| == |st.local| && !st.local[i].phase.Committed? && !st.local[i].phase.Aborted?
  }

  predicate Holds(st: State, k: LockKey, i: nat) {
    k in st.holder && st.holder[k] == i
  }

  /** Before it has the lock a transaction waits while somebody else has it. */
  predicate CanState(w: World, st: State, i: nat) {
    && Running(w, st, i) && !st.local[i].phase.Finished?
    && (Idle(w, w.calls[i]) || LockOf(w.calls[i]) !in st.holder || Holds(st, LockOf(w.calls[i]), i))
  }

  function At(st: State, i: nat, phase: Phase): State
    requires i < |st.local|
  {
    st.(local := st.local[i := st.local[i].(phase := phase)])
  }

  /** Takes the lock, unless it is held already, and notes what a rollback has to restore. */
  function Take(w: World, st: State, i: nat): State
    requires i < |w.calls| == |st.local|
  {
    var k := LockOf(w.calls[i]);
    if Holds(st, k, i) then st
    else st.(holder := st.holder[k := i], local := st.local[i := st.local[i].(before := Get(st.db, k))])
  }

  /** `INSERT IGNORE` of an empty award row; a row that is inserted is locked. */
  function DoInsert(w: World, st: State, i: nat): State
    requires CanState(w, st, i)
  {
    var k := LockOf(w.calls[i]);
    if Idle(w, w.calls[i]) then At(st, i, Finished(Refused))
    else if Get(st.db, k).Row? then At(st, i, Ready)
    else At(Take(w, st, i).(db := st.db[k := Row(0, 0)]), i, Ready)
  }

  /** `SELECT ... FOR UPDATE` of the award row. */
  function DoRead(w: World, st: State, i: nat): State
    requires CanState(w, st, i)
  {
    var t := Take(w, st, i);
    t.(local := t.local[i := t.local[i].(phase := Locked, read := Get(st.db, LockOf(w.calls[i])))])
  }

  /** Gives up at the limit, or writes back the row that was read with one post more. */
  function DoWrite(w: World, st: State, i: nat): State
    requires CanState(w, st, i) && w.calls[i].Award?
  {
    var row := RowOrZero(st.local[i].read);
    if row.posts >= w.calls[i].maxPosts then At(st, i, Finished(Refused))
    else At(st.(db := st.db[LockOf(w.calls[i]) := Row(row.posts + 1, row.points + w.calls[i].points)]),
            i, Finished(Awarded))
  }

  /** `SELECT ... FOR UPDATE` of the challenge. */
  function DoLock(w: World, st: State, i: nat): State
    requires CanState(w, st, i)
  {
    if Idle(w, w.calls[i]) then At(st, i, Finished(NoSuchChallenge)) else At(Take(w, st, i), i, Locked)
  }

  /** Looks for the user among the members. */
  function DoCheck(w: World, st: State, i: nat): State
    requires CanState(w, st, i)
  {
    var users := UsersOf(Get(st.db, LockOf(w.calls[i])));
    At(st, i, if w.calls[i].user in users then Finished(AlreadyJoined) else Checked)
  }

  function DoCount(w: World, st: State, i: nat): State
    requires CanState(w, st, i)
  {
    At(st, i, if Full(w.calls[i], UsersOf(Get(st.db, LockOf(w.calls[i])))) then Finished(LimitHit) else Counted)
  }

  function DoEnter(w: World, st: State, i: nat): State
    requires CanState(w, st, i)
  {
    var k := LockOf(w.calls[i]);
    At(st.(db := st.db[k := Members(UsersOf(Get(st.db, k)) + {w.calls[i].user})]), i, Finished(Joined))
  }

  function DoStatement(w: World, st: State, i: nat): State
    requires CanState(w, st, i)
  {
    if w.calls[i].Award? then
      if st.local[i].phase.Start? then DoInsert(w, st, i)
      else if st.local[i].phase.Ready? then DoRead(w, st, i)
      else DoWrite(w, st, i)
    else
      if st.local[i].phase.Locked? then DoCheck(w, st, i)
      else if st.local[i].phase.Checked? then DoCount(w, st, i)
      else if st.local[i].phase.Counted? then DoEnter(w, st, i)
      else DoLock(w, st, i)
  }

  predicate CanCommit(w: World, st: State, i: nat) {
    Running(w, st, i) && st.local[i].phase.Finished?
  }

  function DoCommit(w: World, st: State, i: nat): State
    requires CanCommit(w, st, i)
  {
    At(st.(holder := Release(w, st, i), commits := st.commits + [i]), i, Committed(st.local[i].phase.answer))
  }

  function DoAbort(w: World, st: State, i: nat): State
    requires Running(w, st, i)
  {
    var k := LockOf(w.calls[i]);
    At(st.(holder := Release(w, st, i), db := if Holds(st, k, i) then st.db[k := st.local[i].before] else st.db),
       i, Aborted)
  }

  function Release(w: World, st: State, i: nat): map<LockKey, nat>
    requires i < |w.calls|
  {
    if Holds(st, LockOf(w.calls[i]), i) then st.holder - {LockOf(w.calls[i])} else st.holder
  }

  predicate Enabled(w: World, st: State, step: Step) {
    match step
    case Statement(i) => CanState(w, st, i)
    case Commit(i) => CanCommit(w, st, i)
    case Abort(i) => Running(w, st, i)
  }

  /** A step that is not enabled does not happen. */
  function Apply(w: World, st: State, step: Step): State {
    if !Enabled(w, st, step) then st else
      match step
      case Statement(i) => DoStatement(w, st, i)
      case Commit(i) => DoCommit(w, st, i)
      case Abort(i) => DoAbort(w, st, i)
  }

  /** Any interleaving. */
  function Exec(w: World, steps: seq<Step>): State {
    if steps == [] then Init(w) else Apply(w, Exec(w, steps[..|steps| - 1]), steps[|steps| - 1])
  }

  // ---------- the invariant of every interleaving ----------

  /** What the committed calls make of a record. */
  function Base(w: World, st: State, k: LockKey): Record {
    Get(Replay(w, st.commits), k)
  }

  /** How far a transaction with its lock is with the work on its record: `b` before, `now` at present. */
  predicate Midway(w: World, c: Call, l: Local, b: Record, now: Record) {
    match l.phase
    case Ready => c.Award? && now == RowOrZero(b)
    case Locked => if c.Award? then now == RowOrZero(b) == l.read else now == b
    case Checked => c.Join? && now == b && c.user !in UsersOf(b)
    case Counted => c.Join? && now == b && c.user !in UsersOf(b) && !Full(c, UsersOf(b))
    case Finished(answer) => Serve(w, c, b) == (now, answer)
    case _ => false
  }

  /** What a transaction without its lock can rely on. */
  predicate Outside(w: World, c: Call, l: Local, b: Record) {
    match l.phase
    case Start => true
    case Ready => c.Award? && b.Row? && !Idle(w, c)
    case Finished(answer) => Idle(w, c) && Serve(w, c, b) == (b, answer)
    case _ => false
  }

  ghost predicate LocalOk(w: World, st: State, i: nat)
    requires i < |w.calls| && i < |st.local|
  {
    var c, k, l := w.calls[i], LockOf(w.calls[i]), st.local[i];
    if Holds(st, k, i) then l.before == Base(w, st, k) && !Idle(w, c) && Midway(w, c, l, Base(w, st, k), Get(st.db, k))
    else Outside(w, c, l, Base(w, st, k))
  }

  ghost predicate KeyOk(w: World, st: State, k: LockKey) {
    if k in st.holder then Running(w, st, st.holder[k]) && LockOf(w.calls[st.holder[k]]) == k
    else Get(st.db, k) == Base(w, st, k)
  }

  ghost predicate Inv(w: World, st: State) {
    && |st.local| == |w.calls|
    && (forall i :: Running(w, st, i) ==> LocalOk(w, st, i))
    && (forall k :: KeyOk(w, st, k))
  }

  /** A step of `i` that commits nothing touches only the record it locks. */
  ghost predicate OnlyMoves(w: World, st: State, st': State, i: nat)
    requires Running(w, st, i)
  {
    var k := LockOf(w.calls[i]);
    && st'.commits == st.commits && |st'.local| == |st.local|
    && (forall j :: 0 <= j < |st.local| && j != i ==> st'.local[j] == st.local[j])
    && (forall k' :: k' != k ==> Get(st'.db, k') == Get(st.db, k') && (k' in st'.holder <==> k' in st.holder)
                                 && (k' in st.holder ==> st'.holder[k'] == st.holder[k']))
    && (k !in st.holder || Holds(st, k, i))
    && (k !in st'.holder || Holds(st', k, i))
  }

  lemma MoveKeeps(w: World, st: State, st': State, i: nat)
    requires Inv(w, st) && Running(w, st, i) && OnlyMoves(w, st, st', i)
    requires Running(w, st', i) ==> LocalOk(w, st', i)
    requires KeyOk(w, st', LockOf(w.calls[i]))
    ensures Inv(w, st')
  {
    forall j | Running(w, st', j) ensures LocalOk(w, st', j) {
      if j != i { MoveKeepsOther(w, st, st', i, j); }
    }
    forall k ensures KeyOk(w, st', k) {
      assert KeyOk(w, st, k);
    }
  }

  lemma MoveKeepsOther(w: World, st: State, st': State, i: nat, j: nat)
    requires Running(w, st, i) && OnlyMoves(w, st, st', i) && j != i && Running(w, st, j) && LocalOk(w, st, j)
    ensures Running(w, st', j) && LocalOk(w, st', j)
  {
  }

  /** The statements of an award. */
  lemma InsertKeeps(w: World, st: State, i: nat)
    requires Inv(w, st) && CanState(w, st, i) && w.calls[i].Award? && st.local[i].phase.Start?
    ensures Inv(w, DoInsert(w, st, i))
  {
    assert LocalOk(w, st, i) && KeyOk(w, st, LockOf(w.calls[i]));
    if Idle(w, w.calls[i]) { IdleKeeps(w, st, i, Refused); } else { MoveKeeps(w, st, DoInsert(w, st, i), i); }
  }

  lemma ReadKeeps(w: World, st: State, i: nat)
    requires Inv(w, st) && CanState(w, st, i) && w.calls[i].Award? && st.local[i].phase.Ready?
    ensures Inv(w, DoRead(w, st, i))
  {
    assert LocalOk(w, st, i) && KeyOk(w, st, LockOf(w.calls[i]));
    MoveKeeps(w, st, DoRead(w, st, i), i);
  }

  lemma WriteKeeps(w: World, st: State, i: nat)
    requires Inv(w, st) && CanState(w, st, i) && w.calls[i].Award?
             && !st.local[i].phase.Start? && !st.local[i].phase.Ready?
    ensures Inv(w, DoWrite(w, st, i))
  {
    assert LocalOk(w, st, i) && KeyOk(w, st, LockOf(w.calls[i]));
    MoveKeeps(w, st, DoWrite(w, st, i), i);
  }

  /** A call that is answered at once, without a lock. */
  lemma IdleKeeps(w: World, st: State, i: nat, answer: Answer)
    requires Inv(w, st) && Running(w, st, i) && st.local[i].phase.Start? && Idle(w, w.calls[i])
    requires answer == if w.calls[i].Award? then Refused else NoSuchChallenge
    ensures Inv(w, At(st, i, Finished(answer)))
  {
    var st' := At(st, i, Finished(answer));
    assert LocalOk(w, st, i);
    forall j | Running(w, st', j) ensures LocalOk(w, st', j) { assert LocalOk(w, st, j); }
    forall k ensures KeyOk(w, st', k) { assert KeyOk(w, st, k); }
  }

  /** The statements of a join. */
  lemma JoinKeeps(w: World, st: State, i: nat)
    requires Inv(w, st) && CanState(w, st, i) && w.calls[i].Join? && !st.local[i].phase.Start?
    ensures Inv(w, DoStatement(w, st, i))
  {
    assert LocalOk(w, st, i) && KeyOk(w, st, LockOf(w.calls[i]));
    MoveKeeps(w, st, DoStatement(w, st, i), i);
  }

  lemma LockKeeps(w: World, st: State, i: nat)
    requires Inv(w, st) && CanState(w, st, i) && w.calls[i].Join? && st.local[i].phase.Start?
    ensures Inv(w, DoLock(w, st, i))
  {
    assert LocalOk(w, st, i) && KeyOk(w, st, LockOf(w.calls[i]));
    if Idle(w, w.calls[i]) { IdleKeeps(w, st, i, NoSuchChallenge); } else { MoveKeeps(w, st, DoLock(w, st, i), i); }
  }

  lemma StatementKeeps(w: World, st: State, i: nat)
    requires Inv(w, st) && CanState(w, st, i)
    ensures Inv(w, DoStatement(w, st, i))
  {
    if w.calls[i].Join? {
      if st.local[i].phase.Start? { LockKeeps(w, st, i); } else { JoinKeeps(w, st, i); }
    } else if st.local[i].phase.Start? {
      InsertKeeps(w, st, i);
    } else if st.local[i].phase.Ready? {
      ReadKeeps(w, st, i);
    } else {
      WriteKeeps(w, st, i);
    }
  }

  lemma AbortKeeps(w: World, st: State, i: nat)
    requires Inv(w, st) && Running(w, st, i)
    ensures Inv(w, DoAbort(w, st, i))
  {
    var st' := DoAbort(w, st, i);
    assert LocalOk(w, st, i) && KeyOk(w, st, LockOf(w.calls[i]));
    forall j | Running(w, st', j) ensures LocalOk(w, st', j) { assert LocalOk(w, st, j); }
    forall k ensures KeyOk(w, st', k) { assert KeyOk(w, st, k); }
  }

  // ---------- commits ----------

  lemma ReplayCommit(w: World, commits: seq<nat>, i: nat, k: LockKey)
    requires i < |w.calls|
    ensures Get(Replay(w, commits + [i]), k) ==
            if k == LockOf(w.calls[i]) then Serve(w, w.calls[i], Get(Replay(w, commits), k)).0
            else Get(Replay(w, commits), k)
  {
    assert (commits + [i])[..|commits|] == commits;
  }

  /** Serving a call never takes an award row away. */
  lemma CommitKeepsLocal(w: World, st: State, i: nat, j: nat)
    requires Inv(w, st) && CanCommit(w, st, i) && Running(w, st, j) && j != i
    ensures LocalOk(w, DoCommit(w, st, i), j)
  {
    assert LocalOk(w, st, i) && LocalOk(w, st, j);
    ReplayCommit(w, st.commits, i, LockOf(w.calls[j]));
  }

  lemma CommitKeepsKey(w: World, st: State, i: nat, k: LockKey)
    requires Inv(w, st) && CanCommit(w, st, i)
    ensures KeyOk(w, DoCommit(w, st, i), k)
  {
    assert LocalOk(w, st, i) && KeyOk(w, st, k);
    ReplayCommit(w, st.commits, i, k);
  }

  lemma CommitKeeps(w: World, st: State, i: nat)
    requires Inv(w, st) && CanCommit(w, st, i)
    ensures Inv(w, DoCommit(w, st, i))
  {
    var st' := DoCommit(w, st, i);
    forall j | Running(w, st', j) ensures LocalOk(w, st', j) { CommitKeepsLocal(w, st, i, j); }
    forall k ensures KeyOk(w, st', k) { CommitKeepsKey(w, st, i, k); }
  }

  /** The answers given are those of the calls one after the other, and nobody commits twice. */
  ghost predicate AnswersOk(w: World, st: State) {
    && (forall n :: 0 <= n < |st.commits| ==> AnswerOk(w, st, n))
    && (forall m, n :: 0 <= m < n < |st.commits| ==> st.commits[m] != st.commits[n])
  }

  ghost predicate AnswerOk(w: World, st: State, n: nat)
    requires n < |st.commits|
  {
    var i := st.commits[n];
    && i < |w.calls| == |st.local|
    && st.local[i].phase == Committed(Serve(w, w.calls[i], Get(Replay(w, st.commits[..n]), LockOf(w.calls[i]))).1)
  }

  lemma CommitKeepsAnswers(w: World, st: State, i: nat)
    requires Inv(w, st) && AnswersOk(w, st) && CanCommit(w, st, i)
    ensures AnswersOk(w, DoCommit(w, st, i))
  {
    var st' := DoCommit(w, st, i);
    assert LocalOk(w, st, i);
    forall n | 0 <= n < |st'.commits| ensures AnswerOk(w, st', n) {
      if n < |st.commits| {
        assert st'.commits[..n] == st.commits[..n];
        assert AnswerOk(w, st, n);
      } else {
        assert st'.commits[..n] == st.commits;
      }
    }
    forall m, n | 0 <= m < n < |st'.commits| ensures st'.commits[m] != st'.commits[n] { assert AnswerOk(w, st, m); }
  }

  /** A step that commits nothing changes no answer. */
  lemma SameAnswers(w: World, st: State, st': State)
    requires AnswersOk(w, st) && st'.commits == st.commits && |st'.local| == |st.local|
    requires forall j :: 0 <= j < |st.local| && st.local[j].phase.Committed? ==> st'.local[j] == st.local[j]
    ensures AnswersOk(w, st')
  {
    forall n | 0 <= n < |st'.commits| ensures AnswerOk(w, st', n) { assert AnswerOk(w, st, n); }
  }

  lemma StatementChangesOne(w: World, st: State, i: nat)
    requires CanState(w, st, i)
    ensures var st' := DoStatement(w, st, i);
            && st'.commits == st.commits && |st'.local| == |st.local|
            && forall j :: 0 <= j < |st.local| && j != i ==> st'.local[j] == st.local[j]
  {
  }

  lemma InitOk(w: World)
    ensures Inv(w, Init(w)) && AnswersOk(w, Init(w))
  {
    var st := Init(w);
    forall i | Running(w, st, i) ensures LocalOk(w, st, i) {}
    forall k ensures KeyOk(w, st, k) {}
  }

  lemma {:induction false} EveryRun(w: World, steps: seq<Step>)
    ensures Inv(w, Exec(w, steps)) && AnswersOk(w, Exec(w, steps))
  {
    if steps == [] {
      InitOk(w);
    } else {
      var st := Exec(w, steps[..|steps| - 1]);
      EveryRun(w, steps[..|steps| - 1]);
      match steps[|steps| - 1]
      case Statement(i) =>
        if CanState(w, st, i) {
          StatementKeeps(w, st, i);
          StatementChangesOne(w, st, i);
          SameAnswers(w, st, DoStatement(w, st, i));
        }
      case Commit(i) =>
        if CanCommit(w, st, i) {
          CommitKeeps(w, st, i);
          CommitKeepsAnswers(w, st, i);
        }
      case Abort(i) =>
        if Running(w, st, i) {
          AbortKeeps(w, st, i);
          SameAnswers(w, st, DoAbort(w, st, i));
        }
    }
  }

  /** Every interleaving is as good as serving the committed calls one after the other: nobody
      commits twice, each answer is the one it would have got, and a record that nobody has locked is
      what they leave behind. */
  lemma Serializable(w: World, steps: seq<Step>)
    ensures var st := Exec(w, steps);
            && (forall n :: 0 <= n < |st.commits| ==> AnswerOk(w, st, n))
            && (forall m, n :: 0 <= m < n < |st.commits| ==> st.commits[m] != st.commits[n])
            && (forall k :: k !in st.holder ==> Get(st.db, k) == Get(Replay(w, st.commits), k))
  {
    EveryRun(w, steps);
    forall k | k !in Exec(w, steps).holder
      ensures Get(Exec(w, steps).db, k) == Get(Replay(w, Exec(w, steps).commits), k)
    {
      assert KeyOk(w, Exec(w, steps), k);
    }
  }
}
