/** Reads reported at the same time: `UpsertChatRead` looks at the row in one statement and writes it
    in another. The mark is the latest read as long as calls for one chat and user do not overlap;
    when they do it can go back. */
module ReadRaces {
  import opened Basics
  import opened ReadMarks

  /** A call has looked at its row, or is done: it raised the mark, left it, or failed on a row that
      somebody else inserted in the meantime. */
  datatype Phase = Start | Saw(found: Option<Mark>) | Raised | Kept | Failed

  datatype State = State(rows: map<Key, Mark>, phase: seq<Phase>, log: seq<Read>)

  datatype Step = Look(i: nat) | Store(i: nat)

  function Get(rows: map<Key, Mark>, k: Key): Option<Mark> {
    if k in rows then Some(rows[k]) else None
  }

  function Init(calls: seq<Read>): State {
    State(map[], seq(|calls|, i => Start), [])
  }

  function Put(st: State, i: nat, r: Read): State
    requires i < |st.phase|
  {
    State(st.rows[r.key := Mark(r.at, r.message)], st.phase[i := Raised], st.log + [r])
  }

  /** The second statement: keeps a mark that is as far, updates one that is not, inserts where there was none. */
  function Write(st: State, i: nat, r: Read): State
    requires i < |st.phase| && st.phase[i].Saw?
  {
    match st.phase[i].found
    case Some(m) => if r.at > m.at then Put(st, i, r) else st.(phase := st.phase[i := Kept], log := st.log + [r])
    case None => if r.key in st.rows then st.(phase := st.phase[i := Failed]) else Put(st, i, r)
  }

  /** A step that is not possible does not happen. */
  function Apply(calls: seq<Read>, st: State, step: Step): State {
    match step
    case Look(i) =>
      if i < |calls| == |st.phase| && st.phase[i].Start?
      then st.(phase := st.phase[i := Saw(Get(st.rows, calls[i].key))])
      else st
    case Store(i) =>
      if i < |calls| == |st.phase| && st.phase[i].Saw? then Write(st, i, calls[i]) else st
  }

  function Exec(calls: seq<Read>, steps: seq<Step>): State {
    if steps == [] then Init(calls) else Apply(calls, Exec(calls, steps[..|steps| - 1]), steps[|steps| - 1])
  }

  /** A call that begins while another one for the same chat and user is between its statements. */
  predicate Overlaps(calls: seq<Read>, st: State, step: Step) {
    && step.Look? && step.i < |calls| == |st.phase| && st.phase[step.i].Start?
    && exists j :: 0 <= j < |calls| && st.phase[j].Saw? && calls[j].key == calls[step.i].key
  }

  ghost predicate NoOverlap(calls: seq<Read>, steps: seq<Step>) {
    forall k :: 0 <= k < |steps| ==> !Overlaps(calls, Exec(calls, steps[..k]), steps[k])
  }

  /** Rows are the latest reads, and whoever has looked has seen the row as it still is, alone. */
  ghost predicate Inv(calls: seq<Read>, st: State) {
    && |st.phase| == |calls|
    && (forall k :: Get(st.rows, k) == Latest(st.log, k))
    && (forall i :: 0 <= i < |calls| && st.phase[i].Saw? ==> st.phase[i].found == Get(st.rows, calls[i].key))
    && (forall i, j :: 0 <= i < j < |calls| && st.phase[i].Saw? && st.phase[j].Saw? ==> calls[i].key != calls[j].key)
  }

  lemma WriteKeeps(calls: seq<Read>, st: State, i: nat)
    requires Inv(calls, st) && i < |calls| && st.phase[i].Saw?
    ensures Inv(calls, Write(st, i, calls[i]))
  {
    var st', r := Write(st, i, calls[i]), calls[i];
    assert (st.log + [r])[..|st.log|] == st.log;
    assert st.phase[i].found == Get(st.rows, r.key) == Latest(st.log, r.key);
    forall k ensures Get(st'.rows, k) == Latest(st'.log, k) { assert Get(st.rows, k) == Latest(st.log, k); }
  }

  /** Without overlaps every row is the latest of all completed reads, none of which fails. */
  lemma {:induction false} MarksAreLatest(calls: seq<Read>, steps: seq<Step>)
    requires NoOverlap(calls, steps)
    ensures Inv(calls, Exec(calls, steps))
    ensures forall k :: Get(Exec(calls, steps).rows, k) == Latest(Exec(calls, steps).log, k)
    ensures forall i :: 0 <= i < |calls| ==> i < |Exec(calls, steps).phase| && !Exec(calls, steps).phase[i].Failed?
  {
    if steps != [] {
      var before, step := steps[..|steps| - 1], steps[|steps| - 1];
      forall k | 0 <= k < |before| ensures !Overlaps(calls, Exec(calls, before[..k]), before[k]) {
        assert before[..k] == steps[..k];
        assert !Overlaps(calls, Exec(calls, steps[..k]), steps[k]);
      }
      MarksAreLatest(calls, before);
      assert !Overlaps(calls, Exec(calls, steps[..|before|]), steps[|before|]);
      var st := Exec(calls, before);
      if step.Store? && step.i < |calls| && st.phase[step.i].Saw? { WriteKeeps(calls, st, step.i); }
    }
  }

  /** With an overlap the mark goes back: in any run, wherever a row is behind two reads, letting
      both look before either writes and the later message write first leaves the earlier one as
      the mark, although the later one was answered as read. */
  lemma OverlapGoesBack(calls: seq<Read>, steps: seq<Step>, i: nat, j: nat)
    requires i < |calls| && j < |calls| && calls[i].key == calls[j].key && calls[i].at < calls[j].at
    requires var st := Exec(calls, steps);
             && |st.phase| == |calls| && st.phase[i].Start? && st.phase[j].Start?
             && calls[i].key in st.rows && st.rows[calls[i].key].at < calls[i].at
    ensures var st := Exec(calls, steps + [Look(i)] + [Look(j)] + [Store(j)] + [Store(i)]);
            && |st.phase| == |calls| && st.phase[j].Raised? && calls[j] in st.log
            && calls[i].key in st.rows && st.rows[calls[i].key].at == calls[i].at < calls[j].at
  {
    ExecMore(calls, steps, Look(i));
    ExecMore(calls, steps + [Look(i)], Look(j));
    ExecMore(calls, steps + [Look(i)] + [Look(j)], Store(j));
    ExecMore(calls, steps + [Look(i)] + [Look(j)] + [Store(j)], Store(i));
  }

  lemma ExecMore(calls: seq<Read>, steps: seq<Step>, step: Step)
    ensures Exec(calls, steps + [step]) == Apply(calls, Exec(calls, steps), step)
  {
    assert (steps + [step])[..|steps|] == steps;
  }

  // ---------- exactly when a mark can go back ----------

  ghost predicate Threefold(calls: seq<Read>, k: Key, a: nat, b: nat, c: nat) {
    && a < |calls| && b < |calls| && c < |calls|
    && calls[a].key == calls[b].key == calls[c].key == k && calls[a].at < calls[b].at < calls[c].at
  }

  /** Calls for the chat and user report three different times. */
  ghost predicate ThreeTimes(calls: seq<Read>, k: Key) {
    exists a: nat, b: nat, c: nat :: Threefold(calls, k, a, b, c)
  }

  /** No completed read is ahead of the row. */
  ghost predicate KeepsUp(st: State, k: Key) {
    forall r :: r in st.log && r.key == k ==> k in st.rows && r.at <= st.rows[k].at
  }

  predicate TimeOfCall(calls: seq<Read>, k: Key, at: int) {
    exists i :: 0 <= i < |calls| && calls[i].key == k && calls[i].at == at
  }

  /** What a call has seen is a time that some call reports, and no later than the row. */
  ghost predicate SawEarlier(calls: seq<Read>, st: State, k: Key) {
    forall i :: 0 <= i < |calls| && i < |st.phase| && calls[i].key == k
                && st.phase[i].Saw? && st.phase[i].found.Some? ==>
      k in st.rows && st.phase[i].found.value.at <= st.rows[k].at
      && TimeOfCall(calls, k, st.phase[i].found.value.at)
  }

  ghost predicate NeverBack(calls: seq<Read>, st: State, k: Key) {
    && |st.phase| == |calls| && KeepsUp(st, k) && SawEarlier(calls, st, k)
    && (k in st.rows ==> TimeOfCall(calls, k, st.rows[k].at))
  }

  /** Of the mark that was seen, the mark that is there and the time of the call, two are equal. */
  lemma RowIsNotLater(calls: seq<Read>, st: State, k: Key, i: nat)
    requires NeverBack(calls, st, k) && !ThreeTimes(calls, k)
    requires i < |calls| && calls[i].key == k && st.phase[i].Saw? && st.phase[i].found.Some?
    requires st.phase[i].found.value.at < calls[i].at
    ensures st.rows[k].at <= calls[i].at
  {
    var a :| 0 <= a < |calls| && calls[a].key == k && calls[a].at == st.phase[i].found.value.at;
    var c :| 0 <= c < |calls| && calls[c].key == k && calls[c].at == st.rows[k].at;
    assert !Threefold(calls, k, a, i, c);
  }

  lemma StoreNeverBack(calls: seq<Read>, st: State, k: Key, i: nat)
    requires NeverBack(calls, st, k) && !ThreeTimes(calls, k) && i < |calls| && st.phase[i].Saw?
    ensures NeverBack(calls, Write(st, i, calls[i]), k)
  {
    if calls[i].key == k && st.phase[i].found.Some? && st.phase[i].found.value.at < calls[i].at {
      RowIsNotLater(calls, st, k, i);
    }
  }

  lemma {:induction false} TwoTimesNeverBack(calls: seq<Read>, steps: seq<Step>, k: Key)
    requires !ThreeTimes(calls, k)
    ensures NeverBack(calls, Exec(calls, steps), k)
  {
    if steps != [] {
      var before, step := steps[..|steps| - 1], steps[|steps| - 1];
      TwoTimesNeverBack(calls, before, k);
      var st := Exec(calls, before);
      if step.Store? && step.i < |calls| && st.phase[step.i].Saw? { StoreNeverBack(calls, st, k, step.i); }
    }
  }

  /** Three calls with three times: the first sets the row, and the other two overlap. */
  lemma ThreeTimesGoBack(calls: seq<Read>, k: Key, a: nat, b: nat, c: nat) returns (steps: seq<Step>)
    requires Threefold(calls, k, a, b, c)
    ensures !KeepsUp(Exec(calls, steps), k)
  {
    var first := [Look(a)] + [Store(a)];
    assert [] + [Look(a)] == [Look(a)];
    ExecMore(calls, [], Look(a));
    ExecMore(calls, [Look(a)], Store(a));
    OverlapGoesBack(calls, first, b, c);
    steps := first + [Look(b)] + [Look(c)] + [Store(c)] + [Store(b)];
    assert calls[c] in Exec(calls, steps).log;
  }

  /** Whatever the interleaving, no completed read of a user in a chat is ever ahead of the row,
      exactly when the calls for them report at most two different times. */
  lemma MarksNeverGoBack(calls: seq<Read>, k: Key)
    ensures (forall steps :: KeepsUp(Exec(calls, steps), k)) <==> !ThreeTimes(calls, k)
  {
    if ThreeTimes(calls, k) {
      var a: nat, b: nat, c: nat :| Threefold(calls, k, a, b, c);
      var steps := ThreeTimesGoBack(calls, k, a, b, c);
    } else {
      forall steps ensures KeepsUp(Exec(calls, steps), k) { TwoTimesNeverBack(calls, steps, k); }
    }
  }
}
