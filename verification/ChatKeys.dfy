/** Chat-key setup: a batch locks the rows of its chats in sorted order, inserts its entries row
    by row, the first writer of a row wins, and all locks are kept until the end. Transactions
    interleave freely; a step of one transaction is one statement on one row. */
module ChatKeys {
  import opened Basics
  import opened Ordering

  datatype RowKey = RowKey(chat: string, user: string)

  /** One wrapped key for one participant of a chat. */
  datatype Entry = Entry(row: RowKey, wrapped: string)

  type Table = map<RowKey, string>

  function Get(t: Table, r: RowKey): Option<string> {
    if r in t then Some(t[r]) else None
  }

  function ChatIds(keys: seq<Entry>): (ids: seq<string>)
    ensures |ids| == |keys| && forall i :: 0 <= i < |keys| ==> ids[i] == keys[i].row.chat
  {
    seq(|keys|, i requires 0 <= i < |keys| => keys[i].row.chat)
  }

  /** The chats of a batch without repetitions, sorted. */
  function SortedChats(keys: seq<Entry>): seq<string> {
    Sorted(ChatIds(keys))
  }

  lemma ChatIsListed(keys: seq<Entry>, e: Entry)
    requires e in keys
    ensures e.row.chat in SortedChats(keys)
  {
    var i :| 0 <= i < |keys| && keys[i] == e;
    assert ChatIds(keys)[i] == e.row.chat;
    assert e.row.chat in Elements(SortedChats(keys));
  }

  /** The list ascends, and names exactly the chats of the batch. */
  lemma ListsTheChats(keys: seq<Entry>, c: string)
    ensures Ascending(SortedChats(keys))
    ensures c in SortedChats(keys) <==> exists e :: e in keys && e.row.chat == c
  {
    assert c in Elements(SortedChats(keys)) <==> c in Elements(ChatIds(keys));
    if c in ChatIds(keys) {
      var i :| 0 <= i < |keys| && ChatIds(keys)[i] == c;
      assert keys[i] in keys;
    }
    if e :| e in keys && e.row.chat == c { ChatIsListed(keys, e); }
  }

  method UniqueSortedChatIds(keys: seq<Entry>) returns (res: seq<string>)
    ensures res == SortedChats(keys)
  {
    var seen: set<string> := {};
    var ids: seq<string> := [];
    for i := 0 to |keys|
      invariant forall c :: c in seen <==> c in ids
      invariant forall c :: c in ids <==> exists j :: 0 <= j < i && keys[j].row.chat == c
    {
      var chat := keys[i].row.chat;
      if chat !in seen {
        seen := seen + {chat};
        ids := ids + [chat];
      }
    }
    res := Sorted(ids);
    SameElements(keys, ids, res);
  }

  lemma SameElements(keys: seq<Entry>, ids: seq<string>, res: seq<string>)
    requires forall c :: c in ids <==> exists j :: 0 <= j < |keys| && keys[j].row.chat == c
    requires Ascending(res) && Elements(res) == Elements(ids)
    ensures res == SortedChats(keys)
  {
    forall c ensures c in Elements(ids) <==> c in Elements(ChatIds(keys)) {
      if c in ids {
        var j :| 0 <= j < |keys| && keys[j].row.chat == c;
        assert ChatIds(keys)[j] == c;
      }
      if c in ChatIds(keys) {
        var j :| 0 <= j < |keys| && ChatIds(keys)[j] == c;
      }
    }
    AscendingUnique(res, SortedChats(keys));
  }

  // ---------- transactions ----------

  /** `UpsertChatKeys` and `GetChatKey`. A reader that finds no row is rolled back by the code; having
      written nothing it ends as if it committed, and that is how its end is recorded here. */
  datatype Txn = Writer(batch: seq<Entry>) | Reader(row: RowKey)

  function Locks(t: Txn): seq<string> {
    match t
    case Writer(batch) => SortedChats(batch)
    case Reader(row) => [row.chat]
  }

  /** How many statements follow the locks. */
  function Statements(t: Txn): nat {
    match t case Writer(batch) => |batch| case Reader(_) => 1
  }

  datatype Status = Active | Committed | Aborted

  /** How far one transaction is: the locks it takes and how many it has, the statements done, the rows
      it inserted, and what a reader read. */
  datatype Local = Local(locks: seq<string>, held: nat, done: nat, status: Status,
                         wrote: set<RowKey>, result: Option<string>)

  /** The shared table with uncommitted rows in it, who holds which chat row, and the commit order. */
  datatype State = State(table: Table, holder: map<string, nat>, local: seq<Local>, commits: seq<nat>)

  datatype Step = Acquire(txn: nat) | Execute(txn: nat) | Commit(txn: nat) | Abort(txn: nat)

  function Init(txns: seq<Txn>): State {
    State(map[], map[], seq(|txns|, i requires 0 <= i < |txns| => Local(Locks(txns[i]), 0, 0, Active, {}, None)), [])
  }

  predicate Running(txns: seq<Txn>, st: State, i: nat) {
    i < |txns| == |st.local| && st.local[i].status.Active?
  }

  predicate CanAcquire(txns: seq<Txn>, st: State, i: nat) {
    Running(txns, st, i) && st.local[i].held < |st.local[i].locks| && st.local[i].locks[st.local[i].held] !in st.holder
  }

  predicate CanExecute(txns: seq<Txn>, st: State, i: nat) {
    Running(txns, st, i) && st.local[i].held == |st.local[i].locks| && st.local[i].done < Statements(txns[i])
  }

  predicate CanCommit(txns: seq<Txn>, st: State, i: nat) {
    Running(txns, st, i) && st.local[i].held == |st.local[i].locks| && st.local[i].done == Statements(txns[i])
  }

  predicate Enabled(txns: seq<Txn>, st: State, step: Step) {
    match step
    case Acquire(i) => CanAcquire(txns, st, i)
    case Execute(i) => CanExecute(txns, st, i)
    case Commit(i) => CanCommit(txns, st, i)
    case Abort(i) => Running(txns, st, i)
  }

  function DoAcquire(txns: seq<Txn>, st: State, i: nat): State
    requires CanAcquire(txns, st, i)
  {
    var l := st.local[i];
    st.(holder := st.holder[l.locks[l.held] := i], local := st.local[i := l.(held := l.held + 1)])
  }

  /** A reader reads its row. */
  function DoRead(txns: seq<Txn>, st: State, i: nat): State
    requires CanExecute(txns, st, i) && txns[i].Reader?
  {
    var l := st.local[i];
    st.(local := st.local[i := l.(done := l.done + 1, result := Get(st.table, txns[i].row))])
  }

  /** A writer inserts its next entry, unless the row is there. */
  function DoInsert(txns: seq<Txn>, st: State, i: nat): State
    requires CanExecute(txns, st, i) && txns[i].Writer?
  {
    var l := st.local[i];
    var e := txns[i].batch[l.done];
    if e.row in st.table then st.(local := st.local[i := l.(done := l.done + 1)])
    else st.(table := st.table[e.row := e.wrapped],
             local := st.local[i := l.(done := l.done + 1, wrote := l.wrote + {e.row})])
  }

  function Release(holder: map<string, nat>, i: nat): map<string, nat> {
    map c | c in holder && holder[c] != i :: holder[c]
  }

  function DoCommit(txns: seq<Txn>, st: State, i: nat): State
    requires CanCommit(txns, st, i)
  {
    st.(holder := Release(st.holder, i), local := st.local[i := st.local[i].(status := Committed)],
        commits := st.commits + [i])
  }

  /** An error rolls the transaction back: the rows it inserted go. */
  function DoAbort(txns: seq<Txn>, st: State, i: nat): State
    requires Running(txns, st, i)
  {
    st.(table := st.table - st.local[i].wrote, holder := Release(st.holder, i),
        local := st.local[i := st.local[i].(status := Aborted)])
  }

  /** A step that is not enabled does not happen. */
  function Apply(txns: seq<Txn>, st: State, step: Step): State {
    if !Enabled(txns, st, step) then st
    else
      match step
      case Acquire(i) => DoAcquire(txns, st, i)
      case Execute(i) => if txns[i].Writer? then DoInsert(txns, st, i) else DoRead(txns, st, i)
      case Commit(i) => DoCommit(txns, st, i)
      case Abort(i) => DoAbort(txns, st, i)
  }

  /** Any interleaving. */
  function Exec(txns: seq<Txn>, steps: seq<Step>): State {
    if steps == [] then Init(txns) else Apply(txns, Exec(txns, steps[..|steps| - 1]), steps[|steps| - 1])
  }

  // ---------- the sequential meaning ----------

  function InsertEntry(t: Table, e: Entry): Table {
    if e.row in t then t else t[e.row := e.wrapped]
  }

  function InsertAll(t: Table, batch: seq<Entry>): Table
    decreases batch
  {
    if batch == [] then t else InsertAll(InsertEntry(t, batch[0]), batch[1..])
  }

  function BatchOf(txns: seq<Txn>, i: nat): seq<Entry> {
    if i < |txns| && txns[i].Writer? then txns[i].batch else []
  }

  /** The committed batches one after the other, in commit order. */
  function Replay(txns: seq<Txn>, commits: seq<nat>): Table {
    if commits == [] then map[]
    else InsertAll(Replay(txns, commits[..|commits| - 1]), BatchOf(txns, commits[|commits| - 1]))
  }

  /** What a row holds after entries are inserted one by one into an empty table: the first. */
  function First(entries: seq<Entry>, r: RowKey): Option<string> {
    if entries == [] then None else if entries[0].row == r then Some(entries[0].wrapped) else First(entries[1..], r)
  }

  function Or(a: Option<string>, b: Option<string>): Option<string> {
    if a.Some? then a else b
  }

  lemma {:induction false} InsertAllGet(t: Table, batch: seq<Entry>, r: RowKey)
    ensures Get(InsertAll(t, batch), r) == Or(Get(t, r), First(batch, r))
    decreases batch
  {
    if batch != [] {
      InsertAllGet(InsertEntry(t, batch[0]), batch[1..], r);
    }
  }

  lemma {:induction false} FirstAppend(entries: seq<Entry>, e: Entry, r: RowKey)
    ensures First(entries + [e], r) == Or(First(entries, r), if e.row == r then Some(e.wrapped) else None)
  {
    if entries != [] {
      assert (entries + [e])[1..] == entries[1..] + [e];
      FirstAppend(entries[1..], e, r);
    }
  }

  lemma {:induction false} FirstNamesRow(entries: seq<Entry>, r: RowKey)
    ensures First(entries, r).Some? <==> exists e :: e in entries && e.row == r
  {
    if entries != [] {
      FirstNamesRow(entries[1..], r);
      assert entries == [entries[0]] + entries[1..];
    }
  }

  // ---------- the invariant of every interleaving ----------

  function FirstN<T>(entries: seq<T>, n: nat): seq<T> {
    if n <= |entries| then entries[..n] else entries
  }

  /** The entries that transaction `i` has put through so far. */
  function Sent(txns: seq<Txn>, st: State, i: nat): seq<Entry> {
    if i < |st.local| then FirstN(BatchOf(txns, i), st.local[i].done) else []
  }

  /** The uncommitted entries of the transaction that holds the chat. */
  function Pending(txns: seq<Txn>, st: State, chat: string): seq<Entry> {
    if chat in st.holder then Sent(txns, st, st.holder[chat]) else []
  }

  ghost predicate LocalOk(txns: seq<Txn>, st: State, i: nat)
    requires i < |txns| == |st.local|
  {
    var l := st.local[i];
    && l.held <= |l.locks| && l.done <= Statements(txns[i])
    && (l.done > 0 ==> l.held == |l.locks|)
    && (l.status.Active? ==> forall k :: 0 <= k < l.held ==> Holds(st, l.locks[k], i))
  }

  predicate Holds(st: State, chat: string, i: nat) {
    chat in st.holder && st.holder[chat] == i
  }

  predicate HolderOk(txns: seq<Txn>, st: State, chat: string)
    requires chat in st.holder
  {
    var i := st.holder[chat];
    Running(txns, st, i) && chat in FirstN(st.local[i].locks, st.local[i].held)
  }

  /** A row holds what the committed batches, replayed one after the other, and then the pending
      entries for its chat would put there. */
  ghost predicate RowOk(txns: seq<Txn>, st: State, r: RowKey) {
    Get(st.table, r) == Or(Get(Replay(txns, st.commits), r), First(Pending(txns, st, r.chat), r))
  }

  ghost predicate WroteOk(txns: seq<Txn>, st: State, i: nat, r: RowKey)
    requires i < |st.local|
  {
    r in st.local[i].wrote <==> Get(Replay(txns, st.commits), r).None? && First(Sent(txns, st, i), r).Some?
  }

  ghost predicate LockOrder(txns: seq<Txn>, st: State) {
    |st.local| == |txns| && forall i :: 0 <= i < |txns| ==> st.local[i].locks == Locks(txns[i])
  }

  ghost predicate LocksOk(txns: seq<Txn>, st: State) {
    && |st.local| == |txns| && LockOrder(txns, st) && (forall i :: 0 <= i < |txns| ==> LocalOk(txns, st, i))
    && (forall c :: c in st.holder ==> HolderOk(txns, st, c))
  }

  ghost predicate TableOk(txns: seq<Txn>, st: State) {
    && (forall r :: RowOk(txns, st, r))
    && (forall i, r :: Running(txns, st, i) ==> WroteOk(txns, st, i, r))
  }

  /** The locks of a transaction ascend. */
  lemma LocksAscend(t: Txn, j: nat, k: nat)
    requires j < k < |Locks(t)|
    ensures Less(Locks(t)[j], Locks(t)[k]) && Locks(t)[j] != Locks(t)[k]
  {
    assert Ascending(Locks(t));
    LessTrichotomy(Locks(t)[j], Locks(t)[k]);
  }

  /** Taking a free lock gives up no lock. */
  lemma AcquireKeepsHolds(txns: seq<Txn>, st: State, i: nat, c: string, j: nat)
    requires CanAcquire(txns, st, i) && Holds(st, c, j)
    ensures Holds(DoAcquire(txns, st, i), c, j)
  {
  }

  lemma AcquireKeepsLocal(txns: seq<Txn>, st: State, i: nat, j: nat)
    requires CanAcquire(txns, st, i) && j < |txns| && LocalOk(txns, st, j)
    ensures LocalOk(txns, DoAcquire(txns, st, i), j)
  {
    var st' := DoAcquire(txns, st, i);
    var l, l' := st.local[j], st'.local[j];
    if l'.status.Active? {
      forall k | 0 <= k < l'.held ensures Holds(st', l'.locks[k], j) {
        if k < l.held { AcquireKeepsHolds(txns, st, i, l.locks[k], j); }
      }
    }
  }

  lemma AcquireKeepsHolder(txns: seq<Txn>, st: State, i: nat, c: string)
    requires LocksOk(txns, st) && CanAcquire(txns, st, i) && c in DoAcquire(txns, st, i).holder
    ensures HolderOk(txns, DoAcquire(txns, st, i), c)
  {
    var ids, held := st.local[i].locks, st.local[i].held;
    assert ids[..held + 1] == ids[..held] + [ids[held]];
    if c != ids[held] { assert HolderOk(txns, st, c); }
  }

  lemma AcquireKeepsLocks(txns: seq<Txn>, st: State, i: nat)
    requires LocksOk(txns, st) && CanAcquire(txns, st, i)
    ensures LocksOk(txns, DoAcquire(txns, st, i))
  {
    var st' := DoAcquire(txns, st, i);
    forall j | 0 <= j < |txns| ensures LocalOk(txns, st', j) { AcquireKeepsLocal(txns, st, i, j); }
    forall c | c in st'.holder ensures HolderOk(txns, st', c) { AcquireKeepsHolder(txns, st, i, c); }
  }

  /** The locks only look at who runs, the locks held and the statements done. */
  ghost predicate SameLocks(txns: seq<Txn>, st: State, st': State, i: nat)
    requires Running(txns, st, i)
  {
    && st'.holder == st.holder && |st'.local| == |st.local|
    && (forall j :: 0 <= j < |st.local| && j != i ==> st'.local[j] == st.local[j])
    && st'.local[i].locks == st.local[i].locks && st'.local[i].held == st.local[i].held
    && st'.local[i].status == st.local[i].status
  }

  lemma ExecuteKeepsLocks(txns: seq<Txn>, st: State, st': State, i: nat)
    requires LocksOk(txns, st) && CanExecute(txns, st, i) && SameLocks(txns, st, st', i)
    requires st'.local[i].done == st.local[i].done + 1
    ensures LocksOk(txns, st')
  {
    forall j | 0 <= j < |txns| ensures LocalOk(txns, st', j) { assert LocalOk(txns, st, j); }
    forall c | c in st'.holder ensures HolderOk(txns, st', c) { assert HolderOk(txns, st, c); }
  }

  /** A transaction that is not `i` keeps its locks when `i` ends. */
  lemma EndKeepsLocks(txns: seq<Txn>, st: State, st': State, i: nat)
    requires LocksOk(txns, st) && Running(txns, st, i) && st'.holder == Release(st.holder, i)
    requires |st'.local| == |st.local| && (forall j :: 0 <= j < |st.local| && j != i ==> st'.local[j] == st.local[j])
    requires !st'.local[i].status.Active? && st'.local[i] == st.local[i].(status := st'.local[i].status)
    ensures LocksOk(txns, st')
  {
    forall j | 0 <= j < |txns| ensures LocalOk(txns, st', j) {
      assert LocalOk(txns, st, j);
      forall k | st'.local[j].status.Active? && 0 <= k < st'.local[j].held
        ensures Holds(st', st'.local[j].locks[k], j)
      {
        assert Holds(st, st.local[j].locks[k], j);
      }
    }
    forall c | c in st'.holder ensures HolderOk(txns, st', c) { assert HolderOk(txns, st, c); }
  }

  /** A transaction that has all its locks holds every chat it names. */
  lemma HoldsItsChats(txns: seq<Txn>, st: State, i: nat, e: Entry)
    requires LocksOk(txns, st) && Running(txns, st, i) && st.local[i].held == |st.local[i].locks|
    requires e in BatchOf(txns, i)
    ensures Holds(st, e.row.chat, i)
  {
    assert LocalOk(txns, st, i);
    ChatIsListed(txns[i].batch, e);
    var ids := st.local[i].locks;
    var k :| 0 <= k < |ids| && ids[k] == e.row.chat;
    assert Holds(st, ids[k], i);
  }

  /** Acquiring a lock changes no row and no pending entry. */
  lemma AcquireKeepsTable(txns: seq<Txn>, st: State, i: nat)
    requires LocksOk(txns, st) && TableOk(txns, st) && CanAcquire(txns, st, i)
    ensures TableOk(txns, DoAcquire(txns, st, i))
  {
    var st' := DoAcquire(txns, st, i);
    assert LocalOk(txns, st, i);
    assert Sent(txns, st, i) == [];
    forall j ensures Sent(txns, st', j) == Sent(txns, st, j) {}
    SamePendingKeepsTable(txns, st, st');
  }

  lemma ReadKeepsTable(txns: seq<Txn>, st: State, i: nat)
    requires LocksOk(txns, st) && TableOk(txns, st) && CanExecute(txns, st, i) && txns[i].Reader?
    ensures TableOk(txns, DoRead(txns, st, i))
  {
    var st' := DoRead(txns, st, i);
    forall j ensures Sent(txns, st', j) == Sent(txns, st, j) {}
    SamePendingKeepsTable(txns, st, st');
  }

  lemma SamePendingKeepsTable(txns: seq<Txn>, st: State, st': State)
    requires TableOk(txns, st) && st'.table == st.table && st'.commits == st.commits && |st'.local| == |st.local|
    requires forall j :: Sent(txns, st', j) == Sent(txns, st, j)
    requires forall c :: Pending(txns, st', c) == Pending(txns, st, c)
    requires forall j :: 0 <= j < |st.local| ==>
               st'.local[j].wrote == st.local[j].wrote && (Running(txns, st', j) ==> Running(txns, st, j))
    ensures TableOk(txns, st')
  {
    forall r ensures RowOk(txns, st', r) { assert RowOk(txns, st, r); }
    forall j, r | Running(txns, st', j) ensures WroteOk(txns, st', j, r) {
      assert Running(txns, st, j) && WroteOk(txns, st, j, r);
    }
  }

  /** What an insert does, seen from outside: one more entry is sent, and its row is there. */
  lemma InsertSends(txns: seq<Txn>, st: State, i: nat)
    requires CanExecute(txns, st, i) && txns[i].Writer?
    ensures var st', e := DoInsert(txns, st, i), txns[i].batch[st.local[i].done];
            && Sent(txns, st', i) == Sent(txns, st, i) + [e]
            && (forall j :: j != i ==> Sent(txns, st', j) == Sent(txns, st, j))
            && (forall r :: Get(st'.table, r) == Or(Get(st.table, r), if e.row == r then Some(e.wrapped) else None))
            && st'.local[i].wrote == st.local[i].wrote + (if Get(st.table, e.row).None? then {e.row} else {})
  {
    assert txns[i].batch[..st.local[i].done + 1]
           == txns[i].batch[..st.local[i].done] + [txns[i].batch[st.local[i].done]];
  }

  lemma InsertKeepsRow(txns: seq<Txn>, st: State, i: nat, r: RowKey)
    requires LocksOk(txns, st) && RowOk(txns, st, r) && CanExecute(txns, st, i) && txns[i].Writer?
    ensures RowOk(txns, DoInsert(txns, st, i), r)
  {
    var e := txns[i].batch[st.local[i].done];
    InsertSends(txns, st, i);
    HoldsItsChats(txns, st, i, e);
    FirstAppend(Sent(txns, st, i), e, r);
  }

  lemma InsertKeepsWrote(txns: seq<Txn>, st: State, i: nat, r: RowKey)
    requires LocksOk(txns, st) && CanExecute(txns, st, i) && txns[i].Writer?
    requires WroteOk(txns, st, i, r) && RowOk(txns, st, txns[i].batch[st.local[i].done].row)
    ensures WroteOk(txns, DoInsert(txns, st, i), i, r)
  {
    var e := txns[i].batch[st.local[i].done];
    InsertSends(txns, st, i);
    HoldsItsChats(txns, st, i, e);
    FirstAppend(Sent(txns, st, i), e, r);
  }

  lemma InsertKeepsTable(txns: seq<Txn>, st: State, i: nat)
    requires LocksOk(txns, st) && TableOk(txns, st) && CanExecute(txns, st, i) && txns[i].Writer?
    ensures TableOk(txns, DoInsert(txns, st, i))
  {
    var st' := DoInsert(txns, st, i);
    forall r ensures RowOk(txns, st', r) { assert RowOk(txns, st, r); InsertKeepsRow(txns, st, i, r); }
    InsertSends(txns, st, i);
    forall j, r | Running(txns, st', j) ensures WroteOk(txns, st', j, r) {
      assert Running(txns, st, j) && WroteOk(txns, st, j, r);
      assert RowOk(txns, st, txns[i].batch[st.local[i].done].row);
      if j == i { InsertKeepsWrote(txns, st, i, r); }
    }
  }

  /** Rows of chats that a transaction does not hold are not touched by what it wrote. */
  lemma SentIsHeld(txns: seq<Txn>, st: State, i: nat, r: RowKey)
    requires LocksOk(txns, st) && Running(txns, st, i) && First(Sent(txns, st, i), r).Some?
    ensures Holds(st, r.chat, i)
  {
    FirstNamesRow(Sent(txns, st, i), r);
    var e :| e in Sent(txns, st, i) && e.row == r;
    assert LocalOk(txns, st, i);
    HoldsItsChats(txns, st, i, e);
  }

  /** When a transaction ends, the entries it had pending are pending no more; all others stay. */
  lemma EndKeepsPending(txns: seq<Txn>, st: State, st': State, i: nat, chat: string)
    requires st'.holder == Release(st.holder, i)
    requires forall j :: j != i ==> Sent(txns, st', j) == Sent(txns, st, j)
    ensures Pending(txns, st', chat) == if Holds(st, chat, i) then [] else Pending(txns, st, chat)
  {
  }

  lemma CommitKeepsRow(txns: seq<Txn>, st: State, i: nat, r: RowKey)
    requires LocksOk(txns, st) && RowOk(txns, st, r) && CanCommit(txns, st, i)
    ensures RowOk(txns, DoCommit(txns, st, i), r)
  {
    EndKeepsPending(txns, st, DoCommit(txns, st, i), i, r.chat);
    ReplayCommit(txns, st.commits, i, r);
    assert Sent(txns, st, i) == BatchOf(txns, i);
    if First(BatchOf(txns, i), r).Some? { SentIsHeld(txns, st, i, r); }
  }

  lemma ReplayCommit(txns: seq<Txn>, commits: seq<nat>, i: nat, r: RowKey)
    ensures Get(Replay(txns, commits + [i]), r) == Or(Get(Replay(txns, commits), r), First(BatchOf(txns, i), r))
  {
    assert (commits + [i])[..|commits|] == commits;
    InsertAllGet(Replay(txns, commits), BatchOf(txns, i), r);
  }

  lemma CommitKeepsWrote(txns: seq<Txn>, st: State, i: nat, j: nat, r: RowKey)
    requires LocksOk(txns, st) && TableOk(txns, st) && CanCommit(txns, st, i) && j != i && Running(txns, st, j)
    ensures WroteOk(txns, DoCommit(txns, st, i), j, r)
  {
    assert WroteOk(txns, st, j, r);
    ReplayCommit(txns, st.commits, i, r);
    assert Sent(txns, st, i) == BatchOf(txns, i);
    if First(Sent(txns, st, j), r).Some? {
      SentIsHeld(txns, st, j, r);
      if First(BatchOf(txns, i), r).Some? { SentIsHeld(txns, st, i, r); }
    }
  }

  lemma CommitKeepsTable(txns: seq<Txn>, st: State, i: nat)
    requires LocksOk(txns, st) && TableOk(txns, st) && CanCommit(txns, st, i)
    ensures TableOk(txns, DoCommit(txns, st, i))
  {
    var st' := DoCommit(txns, st, i);
    forall r ensures RowOk(txns, st', r) { assert RowOk(txns, st, r); CommitKeepsRow(txns, st, i, r); }
    forall j, r | Running(txns, st', j) ensures WroteOk(txns, st', j, r) { CommitKeepsWrote(txns, st, i, j, r); }
  }

  lemma AbortKeepsRow(txns: seq<Txn>, st: State, i: nat, r: RowKey)
    requires LocksOk(txns, st) && RowOk(txns, st, r) && Running(txns, st, i) && WroteOk(txns, st, i, r)
    ensures RowOk(txns, DoAbort(txns, st, i), r)
  {
    EndKeepsPending(txns, st, DoAbort(txns, st, i), i, r.chat);
    if First(Sent(txns, st, i), r).Some? { SentIsHeld(txns, st, i, r); }
  }

  lemma AbortKeepsTable(txns: seq<Txn>, st: State, i: nat)
    requires LocksOk(txns, st) && TableOk(txns, st) && Running(txns, st, i)
    ensures TableOk(txns, DoAbort(txns, st, i))
  {
    var st' := DoAbort(txns, st, i);
    forall r ensures RowOk(txns, st', r) {
      assert RowOk(txns, st, r) && WroteOk(txns, st, i, r);
      AbortKeepsRow(txns, st, i, r);
    }
    forall j, r | Running(txns, st', j) ensures WroteOk(txns, st', j, r) {
      assert Running(txns, st, j) && WroteOk(txns, st, j, r);
    }
  }

  lemma InitOk(txns: seq<Txn>)
    ensures LocksOk(txns, Init(txns)) && TableOk(txns, Init(txns))
  {
    var st := Init(txns);
    forall i | 0 <= i < |txns| ensures LocalOk(txns, st, i) {}
    forall r ensures RowOk(txns, st, r) {}
    forall i, r | Running(txns, st, i) ensures WroteOk(txns, st, i, r) {}
  }

  lemma ExecuteKeeps(txns: seq<Txn>, st: State, i: nat)
    requires LocksOk(txns, st) && TableOk(txns, st) && CanExecute(txns, st, i)
    ensures var st' := if txns[i].Writer? then DoInsert(txns, st, i) else DoRead(txns, st, i);
            LocksOk(txns, st') && TableOk(txns, st')
  {
    if txns[i].Writer? {
      ExecuteKeepsLocks(txns, st, DoInsert(txns, st, i), i);
      InsertKeepsTable(txns, st, i);
    } else {
      ExecuteKeepsLocks(txns, st, DoRead(txns, st, i), i);
      ReadKeepsTable(txns, st, i);
    }
  }

  lemma CommitKeeps(txns: seq<Txn>, st: State, i: nat)
    requires LocksOk(txns, st) && TableOk(txns, st) && CanCommit(txns, st, i)
    ensures LocksOk(txns, DoCommit(txns, st, i)) && TableOk(txns, DoCommit(txns, st, i))
  {
    EndKeepsLocks(txns, st, DoCommit(txns, st, i), i);
    CommitKeepsTable(txns, st, i);
  }

  lemma AbortKeeps(txns: seq<Txn>, st: State, i: nat)
    requires LocksOk(txns, st) && TableOk(txns, st) && Running(txns, st, i)
    ensures LocksOk(txns, DoAbort(txns, st, i)) && TableOk(txns, DoAbort(txns, st, i))
  {
    EndKeepsLocks(txns, st, DoAbort(txns, st, i), i);
    AbortKeepsTable(txns, st, i);
  }

  /** In every interleaving the locks are in order and every row is what the committed batches,
      replayed, and the pending entries of its chat's holder make of it. */
  lemma {:induction false} EveryRun(txns: seq<Txn>, steps: seq<Step>)
    ensures LocksOk(txns, Exec(txns, steps)) && TableOk(txns, Exec(txns, steps))
  {
    if steps == [] {
      InitOk(txns);
    } else {
      var st := Exec(txns, steps[..|steps| - 1]);
      EveryRun(txns, steps[..|steps| - 1]);
      match steps[|steps| - 1]
      case Acquire(i) =>
        if CanAcquire(txns, st, i) {
          AcquireKeepsLocks(txns, st, i);
          AcquireKeepsTable(txns, st, i);
        }
      case Execute(i) => if CanExecute(txns, st, i) { ExecuteKeeps(txns, st, i); }
      case Commit(i) => if CanCommit(txns, st, i) { CommitKeeps(txns, st, i); }
      case Abort(i) => if Running(txns, st, i) { AbortKeeps(txns, st, i); }
    }
  }
}
