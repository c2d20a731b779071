/** What the locks of chat-key setup are for: every interleaving is as good as running the
    committed transactions one after the other, no reader meets half a pair of keys, and nobody
    waits for ever. Rows that were there before count as inserted by an earlier batch. */
module ChatKeysProofs {
  import opened Basics
  import opened Ordering
  import opened ChatKeys

  /** Some batch, not yet finished, holds the chat. */
  predicate WriteHeld(txns: seq<Txn>, st: State, chat: string) {
    chat in st.holder && BatchOf(txns, st.holder[chat]) != []
  }

  lemma UnlockedRow(txns: seq<Txn>, steps: seq<Step>, r: RowKey)
    requires !WriteHeld(txns, Exec(txns, steps), r.chat)
    ensures var st := Exec(txns, steps); Get(st.table, r) == Get(Replay(txns, st.commits), r)
  {
    EveryRun(txns, steps);
    assert RowOk(txns, Exec(txns, steps), r);
  }

  lemma SameRows(t: Table, u: Table)
    requires forall r :: Get(t, r) == Get(u, r)
    ensures t == u
  {
    forall r ensures r in t <==> r in u { assert Get(t, r) == Get(u, r); }
    forall r | r in t ensures t[r] == u[r] { assert Get(t, r) == Get(u, r); }
  }

  // ---------- readers and commits ----------

  ghost predicate CommitsOk(txns: seq<Txn>, st: State) {
    && (forall n :: 0 <= n < |st.commits| ==>
          st.commits[n] < |txns| == |st.local| && st.local[st.commits[n]].status.Committed?)
    && (forall m, n :: 0 <= m < n < |st.commits| ==> st.commits[m] != st.commits[n])
  }

  /** A reader that has read still sees the current replay; once committed, that of its place. */
  ghost predicate ReadOk(txns: seq<Txn>, st: State, i: nat) {
    i < |txns| == |st.local| && txns[i].Reader? ==>
      && (Running(txns, st, i) && st.local[i].done == 1 ==>
            st.local[i].result == Get(Replay(txns, st.commits), txns[i].row))
      && (forall n :: 0 <= n < |st.commits| && st.commits[n] == i ==>
            st.local[i].result == Get(Replay(txns, st.commits[..n]), txns[i].row))
  }

  lemma ReadSeesReplay(txns: seq<Txn>, st: State, i: nat)
    requires LocksOk(txns, st) && TableOk(txns, st) && CanExecute(txns, st, i) && txns[i].Reader?
    ensures Get(st.table, txns[i].row) == Get(Replay(txns, st.commits), txns[i].row)
  {
    assert LocalOk(txns, st, i) && RowOk(txns, st, txns[i].row);
    assert st.local[i].locks == [txns[i].row.chat];
    assert Holds(st, st.local[i].locks[0], i);
  }

  lemma CommitKeepsRead(txns: seq<Txn>, st: State, i: nat, j: nat)
    requires LocksOk(txns, st) && CommitsOk(txns, st) && CanCommit(txns, st, i) && ReadOk(txns, st, j)
    ensures ReadOk(txns, DoCommit(txns, st, i), j)
  {
    var st' := DoCommit(txns, st, i);
    forall n | 0 <= n <= |st.commits| ensures st'.commits[..n] == st.commits[..n] {}
    if j < |txns| && txns[j].Reader? {
      var r := txns[j].row;
      if Running(txns, st, j) && j != i && st.local[j].done == 1 {
        ReplayCommit(txns, st.commits, i, r);
        assert LocalOk(txns, st, j) && st.local[j].locks == [r.chat];
        assert Holds(st, st.local[j].locks[0], j);
        assert Sent(txns, st, i) == BatchOf(txns, i);
        if First(BatchOf(txns, i), r).Some? { SentIsHeld(txns, st, i, r); }
      }
    }
  }

  ghost predicate HistoryOk(txns: seq<Txn>, st: State) {
    CommitsOk(txns, st) && forall i: nat :: ReadOk(txns, st, i)
  }

  /** What a transaction has read does not change unless it reads. */
  lemma SameRead(txns: seq<Txn>, st: State, st': State, j: nat)
    requires ReadOk(txns, st, j) && st'.commits == st.commits && |st'.local| == |st.local|
    requires j < |st.local| ==> st'.local[j].result == st.local[j].result
    requires Running(txns, st', j) ==> Running(txns, st, j) && st'.local[j].done == st.local[j].done
    ensures ReadOk(txns, st', j)
  {
  }

  lemma ReadKeepsHistory(txns: seq<Txn>, st: State, i: nat)
    requires LocksOk(txns, st) && TableOk(txns, st) && HistoryOk(txns, st) && CanExecute(txns, st, i) && txns[i].Reader?
    ensures HistoryOk(txns, DoRead(txns, st, i))
  {
    var st' := DoRead(txns, st, i);
    ReadSeesReplay(txns, st, i);
    forall j: nat ensures ReadOk(txns, st', j) {
      assert ReadOk(txns, st, j);
      if j != i { SameRead(txns, st, st', j); }
    }
  }

  lemma InsertKeepsHistory(txns: seq<Txn>, st: State, i: nat)
    requires HistoryOk(txns, st) && CanExecute(txns, st, i) && txns[i].Writer?
    ensures HistoryOk(txns, DoInsert(txns, st, i))
  {
    var st' := DoInsert(txns, st, i);
    forall j: nat ensures ReadOk(txns, st', j) {
      assert ReadOk(txns, st, j);
      if j != i { SameRead(txns, st, st', j); }
    }
  }

  lemma AcquireKeepsHistory(txns: seq<Txn>, st: State, i: nat)
    requires HistoryOk(txns, st) && CanAcquire(txns, st, i)
    ensures HistoryOk(txns, DoAcquire(txns, st, i))
  {
    forall j: nat ensures ReadOk(txns, DoAcquire(txns, st, i), j) {
      assert ReadOk(txns, st, j);
      SameRead(txns, st, DoAcquire(txns, st, i), j);
    }
  }

  lemma CommitKeepsHistory(txns: seq<Txn>, st: State, i: nat)
    requires LocksOk(txns, st) && HistoryOk(txns, st) && CanCommit(txns, st, i)
    ensures HistoryOk(txns, DoCommit(txns, st, i))
  {
    forall j: nat ensures ReadOk(txns, DoCommit(txns, st, i), j) {
      assert ReadOk(txns, st, j);
      CommitKeepsRead(txns, st, i, j);
    }
  }

  lemma AbortKeepsHistory(txns: seq<Txn>, st: State, i: nat)
    requires HistoryOk(txns, st) && Running(txns, st, i)
    ensures HistoryOk(txns, DoAbort(txns, st, i))
  {
    forall j: nat ensures ReadOk(txns, DoAbort(txns, st, i), j) {
      assert ReadOk(txns, st, j);
      SameRead(txns, st, DoAbort(txns, st, i), j);
    }
  }

  lemma StepKeepsHistory(txns: seq<Txn>, st: State, step: Step)
    requires LocksOk(txns, st) && TableOk(txns, st) && HistoryOk(txns, st) && Enabled(txns, st, step)
    ensures HistoryOk(txns, Apply(txns, st, step))
  {
    match step
    case Acquire(i) => AcquireKeepsHistory(txns, st, i);
    case Execute(i) =>
      if txns[i].Reader? { ReadKeepsHistory(txns, st, i); } else { InsertKeepsHistory(txns, st, i); }
    case Commit(i) => CommitKeepsHistory(txns, st, i);
    case Abort(i) => AbortKeepsHistory(txns, st, i);
  }

  lemma {:induction false} EveryRunHistory(txns: seq<Txn>, steps: seq<Step>)
    ensures HistoryOk(txns, Exec(txns, steps))
  {
    if steps != [] {
      var before := steps[..|steps| - 1];
      EveryRun(txns, before);
      EveryRunHistory(txns, before);
      if Enabled(txns, Exec(txns, before), steps[|steps| - 1]) {
        StepKeepsHistory(txns, Exec(txns, before), steps[|steps| - 1]);
      }
    }
  }

  /** Every interleaving is a sequential run in commit order: nobody commits twice, a committed
      reader saw the batches committed before it and nothing else, and when nobody is running the
      table holds the committed batches inserted one after the other, first writer first. */
  lemma Serializable(txns: seq<Txn>, steps: seq<Step>)
    ensures var st := Exec(txns, steps);
            && (forall m, n :: 0 <= m < n < |st.commits| ==> st.commits[m] != st.commits[n])
            && (forall n :: 0 <= n < |st.commits| && st.commits[n] < |txns| && txns[st.commits[n]].Reader? ==>
                  && st.commits[n] < |st.local|
                  && st.local[st.commits[n]].result == Get(Replay(txns, st.commits[..n]), txns[st.commits[n]].row))
            && ((forall i :: !Running(txns, st, i)) ==> st.table == Replay(txns, st.commits))
  {
    var st := Exec(txns, steps);
    EveryRun(txns, steps);
    EveryRunHistory(txns, steps);
    forall n | 0 <= n < |st.commits| && st.commits[n] < |txns| && txns[st.commits[n]].Reader?
      ensures st.commits[n] < |st.local|
      ensures st.local[st.commits[n]].result == Get(Replay(txns, st.commits[..n]), txns[st.commits[n]].row)
    {
      assert ReadOk(txns, st, st.commits[n]);
    }
    if forall i :: !Running(txns, st, i) {
      forall r ensures Get(st.table, r) == Get(Replay(txns, st.commits), r) {
        assert r.chat !in st.holder;
        UnlockedRow(txns, steps, r);
      }
      SameRows(st.table, Replay(txns, st.commits));
    }
  }

  /** A row that a committed batch has set keeps its value, whatever commits later. */
  lemma {:induction false} RowsAreKept(txns: seq<Txn>, commits: seq<nat>, n: nat, r: RowKey)
    requires n <= |commits| && Get(Replay(txns, commits[..n]), r).Some?
    ensures Get(Replay(txns, commits), r) == Get(Replay(txns, commits[..n]), r)
  {
    if n == |commits| {
      assert commits[..n] == commits;
    } else {
      var before, last := commits[..|commits| - 1], commits[|commits| - 1];
      assert commits[..n] == before[..n] && commits == before + [last];
      RowsAreKept(txns, before, n, r);
      ReplayCommit(txns, before, last, r);
    }
  }

  /** The entry for the row is the first of its batch. */
  ghost predicate FirstIn(batch: seq<Entry>, r: RowKey, j: int) {
    0 <= j < |batch| && batch[j].row == r && forall i :: 0 <= i < j ==> batch[i].row != r
  }

  lemma {:induction false} FirstIsFirst(batch: seq<Entry>, r: RowKey)
    ensures First(batch, r).None? ==> forall e :: e in batch ==> e.row != r
    ensures First(batch, r).Some? ==> exists j :: FirstIn(batch, r, j) && batch[j].wrapped == First(batch, r).value
  {
    if batch != [] {
      assert batch == [batch[0]] + batch[1..];
      FirstIsFirst(batch[1..], r);
      if batch[0].row == r {
        assert FirstIn(batch, r, 0);
      } else if First(batch, r).Some? {
        var j :| FirstIn(batch[1..], r, j) && batch[1..][j].wrapped == First(batch, r).value;
        forall i | 0 <= i < j + 1 ensures batch[i].row != r { if i > 0 { assert batch[1..][i - 1].row != r; } }
        assert FirstIn(batch, r, j + 1);
      }
    }
  }

  /** The batch that committed as `n`-th has an entry for the row and no batch before it has; entry `j` is its first
      one. */
  ghost predicate WroteFirst(txns: seq<Txn>, commits: seq<nat>, r: RowKey, n: int, j: int) {
    && 0 <= n < |commits| && commits[n] < |txns| && txns[commits[n]].Writer?
    && FirstIn(txns[commits[n]].batch, r, j)
    && forall m :: 0 <= m < n && commits[m] < |txns| && txns[commits[m]].Writer? ==> !Carries(txns[commits[m]].batch, r)
  }

  /** The row holds what the first committed batch that carries it put there, with its first entry for the row; or no
      committed batch carries it, and it is not there. */
  ghost predicate FromFirstWriter(txns: seq<Txn>, t: Table, commits: seq<nat>, r: RowKey) {
    || (exists n, j :: WroteFirst(txns, commits, r, n, j) && Get(t, r) == Some(txns[commits[n]].batch[j].wrapped))
    || (r !in t && NoneCarries(txns, commits, r))
  }

  ghost predicate NoneCarries(txns: seq<Txn>, commits: seq<nat>, r: RowKey) {
    forall n :: 0 <= n < |commits| && commits[n] < |txns| && txns[commits[n]].Writer? ==>
                  !Carries(txns[commits[n]].batch, r)
  }

  lemma {:induction false} ReplayIsFirst(txns: seq<Txn>, commits: seq<nat>, r: RowKey)
    ensures FromFirstWriter(txns, Replay(txns, commits), commits, r)
  {
    if commits != [] {
      var before, last := commits[..|commits| - 1], commits[|commits| - 1];
      assert commits == before + [last];
      ReplayIsFirst(txns, before, r);
      ReplayCommit(txns, before, last, r);
      FirstIsFirst(BatchOf(txns, last), r);
      if r in Replay(txns, before) {
        var n, j :| WroteFirst(txns, before, r, n, j)
                    && Get(Replay(txns, before), r) == Some(txns[before[n]].batch[j].wrapped);
        assert WroteFirst(txns, commits, r, n, j);
      } else if First(BatchOf(txns, last), r).Some? {
        var batch := BatchOf(txns, last);
        var j :| FirstIn(batch, r, j) && batch[j].wrapped == First(batch, r).value;
        assert WroteFirst(txns, commits, r, |before|, j);
      }
    }
  }

  /** In any run, a row whose chat no batch holds comes from its first writer. */
  lemma FirstWriterWins(txns: seq<Txn>, steps: seq<Step>, r: RowKey)
    requires !WriteHeld(txns, Exec(txns, steps), r.chat)
    ensures FromFirstWriter(txns, Exec(txns, steps).table, Exec(txns, steps).commits, r)
  {
    UnlockedRow(txns, steps, r);
    ReplayIsFirst(txns, Exec(txns, steps).commits, r);
  }

  /** Two committed readers of one row agree on the key as soon as the earlier one found any. */
  lemma ReadersAgree(txns: seq<Txn>, steps: seq<Step>, m: nat, n: nat)
    requires var st := Exec(txns, steps);
             && m < n < |st.commits| && st.commits[m] < |txns| == |st.local| && st.commits[n] < |txns|
             && txns[st.commits[m]].Reader? && txns[st.commits[n]] == txns[st.commits[m]]
             && st.local[st.commits[m]].result.Some?
    ensures var st := Exec(txns, steps); st.local[st.commits[n]].result == st.local[st.commits[m]].result
  {
    var st := Exec(txns, steps);
    Serializable(txns, steps);
    assert st.commits[..n][..m] == st.commits[..m];
    RowsAreKept(txns, st.commits[..n], m, txns[st.commits[m]].row);
  }

  // ---------- no deadlock ----------

  /** The next statement a transaction waits to do. */
  function Next(txns: seq<Txn>, st: State, i: nat): Step
    requires Running(txns, st, i)
  {
    var l := st.local[i];
    if l.held < |l.locks| then Acquire(i) else if l.done < Statements(txns[i]) then Execute(i) else Commit(i)
  }

  lemma NextIsEnabled(txns: seq<Txn>, st: State, i: nat)
    requires LocksOk(txns, st) && Running(txns, st, i)
    requires st.local[i].held < |st.local[i].locks| ==> st.local[i].locks[st.local[i].held] !in st.holder
    ensures Enabled(txns, st, Next(txns, st, i))
  {
    assert LocalOk(txns, st, i);
  }

  /** The holder of the largest locked chat never waits: its next chat is larger still. */
  lemma LargestHolderMoves(txns: seq<Txn>, st: State, c: string)
    requires LocksOk(txns, st) && c in st.holder && forall d :: d in st.holder ==> d == c || Less(d, c)
    ensures Running(txns, st, st.holder[c]) && Enabled(txns, st, Next(txns, st, st.holder[c]))
  {
    var i := st.holder[c];
    assert HolderOk(txns, st, c) && LocalOk(txns, st, i);
    var l := st.local[i];
    if l.held < |l.locks| {
      var d := l.locks[l.held];
      var k :| 0 <= k < l.held && l.locks[k] == c;
      assert l.locks == Locks(txns[i]);
      LocksAscend(txns[i], k, l.held);
      LessTrichotomy(c, d);
      assert d !in st.holder;
    }
    NextIsEnabled(txns, st, i);
  }

  /** As long as a transaction is unfinished, one of them can do its next statement. */
  lemma SomeoneCanMove(txns: seq<Txn>, st: State, i: nat) returns (j: nat)
    requires LocksOk(txns, st) && Running(txns, st, i)
    ensures Running(txns, st, j) && Enabled(txns, st, Next(txns, st, j))
  {
    if st.holder.Keys == {} {
      j := i;
      assert forall c :: c in st.holder ==> c in st.holder.Keys;
      NextIsEnabled(txns, st, i);
    } else {
      var c := LargestExists(st.holder.Keys);
      j := st.holder[c];
      LargestHolderMoves(txns, st, c);
    }
  }

  // ---------- everybody finishes ----------

  function WorkOf(txns: seq<Txn>, st: State, i: nat): nat {
    if Running(txns, st, i) && st.local[i].held <= |st.local[i].locks| && st.local[i].done <= Statements(txns[i])
    then |st.local[i].locks| - st.local[i].held + Statements(txns[i]) - st.local[i].done + 1 else 0
  }

  /** The statements the first `n` transactions have still to do. */
  function Work(txns: seq<Txn>, st: State, n: nat): nat {
    if n == 0 then 0 else Work(txns, st, n - 1) + WorkOf(txns, st, n - 1)
  }

  lemma {:induction false} LessWork(txns: seq<Txn>, st: State, st': State, i: nat, n: nat)
    requires forall j: nat :: j != i ==> WorkOf(txns, st', j) == WorkOf(txns, st, j)
    requires WorkOf(txns, st', i) < WorkOf(txns, st, i)
    ensures Work(txns, st', n) <= Work(txns, st, n) - (if i < n then 1 else 0)
  {
    if n > 0 { LessWork(txns, st, st', i, n - 1); }
  }

  /** Every statement, every commit and every rollback leaves less to do. */
  lemma StepWorks(txns: seq<Txn>, st: State, step: Step)
    requires LocksOk(txns, st) && Enabled(txns, st, step)
    ensures Work(txns, Apply(txns, st, step), |txns|) < Work(txns, st, |txns|)
  {
    assert LocalOk(txns, st, step.txn);
    LessWork(txns, st, Apply(txns, st, step), step.txn, |txns|);
  }

  lemma ExecMore(txns: seq<Txn>, steps: seq<Step>, step: Step)
    ensures Exec(txns, steps + [step]) == Apply(txns, Exec(txns, steps), step)
  {
    assert (steps + [step])[..|steps|] == steps;
  }

  lemma Progress(txns: seq<Txn>, steps: seq<Step>, i: nat) returns (step: Step)
    requires Running(txns, Exec(txns, steps), i)
    ensures !step.Abort? && Work(txns, Exec(txns, steps + [step]), |txns|) < Work(txns, Exec(txns, steps), |txns|)
  {
    var st := Exec(txns, steps);
    EveryRun(txns, steps);
    var j := SomeoneCanMove(txns, st, i);
    step := Next(txns, st, j);
    StepWorks(txns, st, step);
    ExecMore(txns, steps, step);
  }

  /** No deadlock: from any point of any run the unfinished transactions can all be finished, and
      by their own statements alone, nobody being rolled back. */
  lemma {:induction false} EveryoneCanFinish(txns: seq<Txn>, steps: seq<Step>) returns (more: seq<Step>)
    ensures forall k :: 0 <= k < |more| ==> !more[k].Abort?
    ensures forall i :: !Running(txns, Exec(txns, steps + more), i)
    decreases Work(txns, Exec(txns, steps), |txns|)
  {
    if i :| 0 <= i < |txns| && Running(txns, Exec(txns, steps), i) {
      var step := Progress(txns, steps, i);
      var rest := EveryoneCanFinish(txns, steps + [step]);
      more := [step] + rest;
      assert steps + more == steps + [step] + rest;
    } else {
      more := [];
      assert steps + more == steps;
    }
  }

  predicate AllEnabled(txns: seq<Txn>, steps: seq<Step>) {
    steps == [] || (AllEnabled(txns, steps[..|steps| - 1])
                    && Enabled(txns, Exec(txns, steps[..|steps| - 1]), steps[|steps| - 1]))
  }

  /** No run goes on for ever either: it has no more steps than there are statements. */
  lemma {:induction false} RunsEnd(txns: seq<Txn>, steps: seq<Step>)
    requires AllEnabled(txns, steps)
    ensures |steps| + Work(txns, Exec(txns, steps), |txns|) <= Work(txns, Init(txns), |txns|)
  {
    if steps != [] {
      var before := steps[..|steps| - 1];
      RunsEnd(txns, before);
      EveryRun(txns, before);
      StepWorks(txns, Exec(txns, before), steps[|steps| - 1]);
    }
  }

  // ---------- pairs of keys ----------

  ghost predicate Carries(batch: seq<Entry>, r: RowKey) {
    exists e :: e in batch && e.row == r
  }

  /** Every batch carries both rows or neither. */
  ghost predicate Paired(txns: seq<Txn>, a: RowKey, b: RowKey) {
    forall i :: 0 <= i < |txns| && txns[i].Writer? ==> (Carries(txns[i].batch, a) <==> Carries(txns[i].batch, b))
  }

  ghost predicate FromBatch(txns: seq<Txn>, t: Table, a: RowKey, b: RowKey, i: nat) {
    && Get(t, a) == First(BatchOf(txns, i), a) && Get(t, b) == First(BatchOf(txns, i), b)
    && Get(t, a).Some? && Get(t, b).Some?
  }

  /** Neither row is there, or both are, as one committed batch had them. */
  ghost predicate Whole(txns: seq<Txn>, t: Table, commits: seq<nat>, a: RowKey, b: RowKey) {
    || (Get(t, a).None? && Get(t, b).None?)
    || exists i :: i in commits && FromBatch(txns, t, a, b, i)
  }

  lemma BothOrNeither(txns: seq<Txn>, a: RowKey, b: RowKey, i: nat)
    requires Paired(txns, a, b)
    ensures First(BatchOf(txns, i), a).Some? <==> First(BatchOf(txns, i), b).Some?
  {
    FirstNamesRow(BatchOf(txns, i), a);
    FirstNamesRow(BatchOf(txns, i), b);
    if i < |txns| && txns[i].Writer? {
      assert Carries(txns[i].batch, a) <==> Carries(txns[i].batch, b);
    }
  }

  lemma {:induction false} ReplayIsWhole(txns: seq<Txn>, commits: seq<nat>, a: RowKey, b: RowKey)
    requires Paired(txns, a, b)
    ensures Whole(txns, Replay(txns, commits), commits, a, b)
  {
    if commits != [] {
      var before, last := commits[..|commits| - 1], commits[|commits| - 1];
      assert commits == before + [last];
      ReplayIsWhole(txns, before, a, b);
      ReplayCommit(txns, before, last, a);
      ReplayCommit(txns, before, last, b);
      BothOrNeither(txns, a, b, last);
      if Get(Replay(txns, before), a).Some? {
        var i :| i in before && FromBatch(txns, Replay(txns, before), a, b, i);
        assert i in commits && FromBatch(txns, Replay(txns, commits), a, b, i);
      } else if First(BatchOf(txns, last), a).Some? {
        assert last in commits && FromBatch(txns, Replay(txns, commits), a, b, last);
      }
    }
  }

  /** Only transaction `i` has done anything so far. */
  ghost predicate OnlyMover(st: State, i: nat) {
    st.commits == [] && forall c :: c in st.holder ==> st.holder[c] == i
  }

  lemma LoneMoverMoves(txns: seq<Txn>, st: State, i: nat)
    requires LocksOk(txns, st) && Running(txns, st, i) && OnlyMover(st, i)
    ensures Enabled(txns, st, Next(txns, st, i))
  {
    var l := st.local[i];
    assert LocalOk(txns, st, i);
    if l.held < |l.locks| && l.locks[l.held] in st.holder {
      assert HolderOk(txns, st, l.locks[l.held]);
      var k :| 0 <= k < l.held && l.locks[k] == l.locks[l.held];
      assert l.locks == Locks(txns[i]);
      LocksAscend(txns[i], k, l.held);
    }
    NextIsEnabled(txns, st, i);
  }

  lemma {:induction false} RunAlone(txns: seq<Txn>, steps: seq<Step>, i: nat) returns (more: seq<Step>)
    requires Running(txns, Exec(txns, steps), i) && OnlyMover(Exec(txns, steps), i)
    ensures Exec(txns, more).commits == [i] && Exec(txns, more).holder == map[]
    decreases Work(txns, Exec(txns, steps), |txns|)
  {
    var st := Exec(txns, steps);
    EveryRun(txns, steps);
    LoneMoverMoves(txns, st, i);
    var step := Next(txns, st, i);
    StepWorks(txns, st, step);
    ExecMore(txns, steps, step);
    if step.Commit? {
      more := steps + [step];
    } else {
      more := RunAlone(txns, steps + [step], i);
    }
  }

  /** Two rows of one chat are never seen one without the other, nor from two different batches,
      exactly when every batch carries both of them or neither. */
  lemma PairsStayWhole(txns: seq<Txn>, a: RowKey, b: RowKey)
    requires a.chat == b.chat
    ensures Paired(txns, a, b) <==>
            forall steps :: !WriteHeld(txns, Exec(txns, steps), a.chat) ==>
                              Whole(txns, Exec(txns, steps).table, Exec(txns, steps).commits, a, b)
  {
    if Paired(txns, a, b) {
      forall steps | !WriteHeld(txns, Exec(txns, steps), a.chat)
        ensures Whole(txns, Exec(txns, steps).table, Exec(txns, steps).commits, a, b)
      {
        WholeAsReplay(txns, steps, a, b);
      }
    } else {
      var steps := HalfPair(txns, a, b);
    }
  }

  lemma WholeAsReplay(txns: seq<Txn>, steps: seq<Step>, a: RowKey, b: RowKey)
    requires a.chat == b.chat && Paired(txns, a, b) && !WriteHeld(txns, Exec(txns, steps), a.chat)
    ensures Whole(txns, Exec(txns, steps).table, Exec(txns, steps).commits, a, b)
  {
    var st := Exec(txns, steps);
    UnlockedRow(txns, steps, a);
    UnlockedRow(txns, steps, b);
    ReplayIsWhole(txns, st.commits, a, b);
    if i :| i in st.commits && FromBatch(txns, Replay(txns, st.commits), a, b, i) {
      assert FromBatch(txns, st.table, a, b, i);
    }
  }

  /** A reader that is about to read, with the chat locked, never meets half a pair. */
  lemma ReadersMeetWholePairs(txns: seq<Txn>, steps: seq<Step>, i: nat, b: RowKey)
    requires CanExecute(txns, Exec(txns, steps), i) && txns[i].Reader?
    requires b.chat == txns[i].row.chat && Paired(txns, txns[i].row, b)
    ensures Whole(txns, Exec(txns, steps).table, Exec(txns, steps).commits, txns[i].row, b)
  {
    var st := Exec(txns, steps);
    EveryRun(txns, steps);
    assert LocalOk(txns, st, i) && st.local[i].locks == [b.chat];
    assert Holds(st, st.local[i].locks[0], i);
    WholeAsReplay(txns, steps, txns[i].row, b);
  }

  /** A batch with one row but not the other, run alone, leaves half a pair. */
  lemma HalfPair(txns: seq<Txn>, a: RowKey, b: RowKey) returns (steps: seq<Step>)
    requires a.chat == b.chat && !Paired(txns, a, b)
    ensures !WriteHeld(txns, Exec(txns, steps), a.chat)
    ensures !Whole(txns, Exec(txns, steps).table, Exec(txns, steps).commits, a, b)
  {
    var i :| 0 <= i < |txns| && txns[i].Writer? && !(Carries(txns[i].batch, a) <==> Carries(txns[i].batch, b));
    assert Exec(txns, []) == Init(txns);
    steps := RunAlone(txns, [], i);
    UnlockedRow(txns, steps, a);
    UnlockedRow(txns, steps, b);
    ReplayCommit(txns, [], i, a);
    ReplayCommit(txns, [], i, b);
    assert [] + [i] == [i];
    FirstNamesRow(txns[i].batch, a);
    FirstNamesRow(txns[i].batch, b);
  }
}
