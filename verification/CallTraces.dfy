/** What can be read off the history of a hub: who was dropped and why, who let a participant in,
    and how many calls a chat has. */
module CallTraces {
  import opened Basics
  import opened Calls
  import opened CallRuns

  ghost predicate Joined(h: HubState, id: string, u: string) {
    id in h.calls && u in h.calls[id].joined
  }

  /** The event settles anew whether the connection of the member counts as lost. */
  predicate Touches(e: Event, id: string, u: string) {
    || (e.Request? && e.id == id && e.user == u)
    || (e.Leave? && e.id == id && e.user == u)
    || (e.Lost? && e.id == id && e.user == u)
  }

  /** Event `k` marked the member disconnected at time `d`, and the member did nothing since. */
  ghost predicate MarkAt(trace: seq<Event>, k: int, id: string, u: string, d: int) {
    && 0 <= k < |trace| && trace[k] == Lost(id, u, d) && Joined(Exec(trace[..k]), id, u)
    && forall m :: k < m < |trace| ==> !Touches(trace[m], id, u)
  }

  ghost predicate MarkedSince(trace: seq<Event>, id: string, u: string, d: int) {
    exists k :: MarkAt(trace, k, id, u, d)
  }

  /** The mark as the history has it: the last event decides, or else the events before. */
  lemma MarkedBefore(before: seq<Event>, e: Event, id: string, u: string, d: int)
    ensures MarkedSince(before + [e], id, u, d) <==>
            (MarkedSince(before, id, u, d) && !Touches(e, id, u))
            || (e == Lost(id, u, d) && Joined(Exec(before), id, u))
  {
    var trace := before + [e];
    assert trace[..|before|] == before;
    if MarkedSince(before, id, u, d) && !Touches(e, id, u) {
      var k :| MarkAt(before, k, id, u, d);
      assert trace[..k] == before[..k];
      assert MarkAt(trace, k, id, u, d);
    }
    if e == Lost(id, u, d) && Joined(Exec(before), id, u) {
      assert MarkAt(trace, |before|, id, u, d);
    }
    if MarkedSince(trace, id, u, d) {
      var k :| MarkAt(trace, k, id, u, d);
      if k < |before| {
        assert trace[..k] == before[..k];
        assert !Touches(trace[|before|], id, u);
        forall m | k < m < |before| ensures !Touches(before[m], id, u) { assert before[m] == trace[m]; }
        assert MarkAt(before, k, id, u, d);
      }
    }
  }

  ghost predicate DisconnectedAt(h: HubState, id: string, u: string, d: int) {
    id in h.calls && u in h.calls[id].disconnected && h.calls[id].disconnected[u] == d
  }

  /** What an event does to the mark of somebody who is in before and after. */
  lemma MarkAfter(c: Call, e: Event, id: string, u: string, d: int)
    requires CallOk(c) && Step(c, e, id).Some? && u in c.joined && u in Step(c, e, id).value.joined
    ensures var c' := Step(c, e, id).value;
            (u in c'.disconnected && c'.disconnected[u] == d) <==>
            (u in c.disconnected && c.disconnected[u] == d && !Touches(e, id, u)) || e == Lost(id, u, d)
  {
  }

  /** Somebody who was not in comes in by asking, or by being let in from the waiting list. */
  lemma Enters(c: Call, e: Event, id: string, u: string)
    requires CallOk(c) && Step(c, e, id).Some? && u !in c.joined && u in Step(c, e, id).value.joined
    ensures u !in Step(c, e, id).value.disconnected
    ensures (e.Request? && e.id == id && e.user == u)
            || (e.Approve? && e.id == id && e.user == u && u !in c.participants)
  {
  }

  /** Somebody with a mark was a participant then, and still is. */
  lemma MarkedIsParticipant(trace: seq<Event>, id: string, u: string, d: int)
    requires MarkedSince(trace, id, u, d)
    ensures id !in Exec(trace).drafts
    ensures id in Exec(trace).calls ==> u in Exec(trace).calls[id].participants
  {
    var k :| MarkAt(trace, k, id, u, d);
    EveryRun(trace[..k]);
    EveryRun(trace[..|trace| - 1]);
    StaysOpened(trace, k, id);
    OpenedStays(Exec(trace[..|trace| - 1]), trace[|trace| - 1], id);
    if id in Exec(trace).calls { ParticipantsOnlyGrow(trace, k, id); }
  }

  /** The table of lost connections says exactly what the history says. */
  lemma {:induction false} MarksAreHistory(trace: seq<Event>, id: string, u: string, d: int)
    requires Joined(Exec(trace), id, u)
    ensures DisconnectedAt(Exec(trace), id, u, d) <==> MarkedSince(trace, id, u, d)
  {
    if trace != [] {
      var before, e := trace[..|trace| - 1], trace[|trace| - 1];
      assert trace == before + [e];
      EveryRun(before);
      MarkedBefore(before, e, id, u, d);
      if Joined(Exec(before), id, u) {
        MarksAreHistory(before, id, u, d);
        MarkStep(before, e, id, u, d);
      } else {
        NewcomerHasNoMark(before, e, id, u, d);
      }
    }
  }

  lemma MarkStep(before: seq<Event>, e: Event, id: string, u: string, d: int)
    requires HubOk(Exec(before)) && Joined(Exec(before), id, u) && Joined(Next(Exec(before), e), id, u)
    ensures DisconnectedAt(Next(Exec(before), e), id, u, d) <==>
            (DisconnectedAt(Exec(before), id, u, d) && !Touches(e, id, u)) || e == Lost(id, u, d)
  {
    var h := Exec(before);
    OpenedStays(h, e, id);
    MarkAfter(h.calls[id], e, id, u, d);
  }

  lemma NewcomerHasNoMark(before: seq<Event>, e: Event, id: string, u: string, d: int)
    requires HubOk(Exec(before)) && !Joined(Exec(before), id, u) && Joined(Next(Exec(before), e), id, u)
    ensures !DisconnectedAt(Next(Exec(before), e), id, u, d)
    ensures !MarkedSince(before, id, u, d) || Touches(e, id, u)
  {
    var h := Exec(before);
    if id in h.calls {
      OpenedStays(h, e, id);
      Enters(h.calls[id], e, id, u);
      if MarkedSince(before, id, u, d) { MarkedIsParticipant(before, id, u, d); }
    } else {
      DraftsHaveNoMarks(before, id);
      if MarkedSince(before, id, u, d) { MarkedIsParticipant(before, id, u, d); }
    }
  }

  lemma {:induction false} DraftsHaveNoMarks(trace: seq<Event>, id: string)
    ensures id in Exec(trace).drafts ==> Exec(trace).drafts[id].disconnected == map[]
  {
    if trace != [] {
      var before, e := trace[..|trace| - 1], trace[|trace| - 1];
      DraftsHaveNoMarks(before, id);
      if e.Check? && Passes(Exec(before), e) { DraftOk(e); }
    }
  }

  /** The grace period, over whole histories: a cleanup at `now` that does not end the call by
      timeout takes out exactly the members who were marked disconnected at least the grace period
      earlier and have not come back, left or been marked again since. */
  lemma Grace(trace: seq<Event>, id: string, u: string, now: int)
    requires Joined(Exec(trace), id, u) && !Expired(Exec(trace).calls[id], now)
    ensures !Joined(Exec(trace + [Cleanup(now)]), id, u) <==>
            exists d :: MarkedSince(trace, id, u, d) && now - d >= GRACE
  {
    var h := Exec(trace);
    var c := h.calls[id];
    assert (trace + [Cleanup(now)])[..|trace|] == trace;
    CleanupDrops(h, id, u, now);
    if u in Due(c, now) {
      MarksAreHistory(trace, id, u, c.disconnected[u]);
      assert MarkedSince(trace, id, u, c.disconnected[u]) && now - c.disconnected[u] >= GRACE;
    }
    if d :| MarkedSince(trace, id, u, d) && now - d >= GRACE {
      MarksAreHistory(trace, id, u, d);
    }
  }

  lemma CleanupDrops(h: HubState, id: string, u: string, now: int)
    requires Joined(h, id, u) && !Expired(h.calls[id], now)
    ensures !Joined(Next(h, Cleanup(now)), id, u) <==> u in Due(h.calls[id], now)
  {
    var c := h.calls[id];
    var d := Dropped(Tidied(c, now), Due(c, now));
    assert d.joined == c.joined - Due(c, now);
    assert Step(c, Cleanup(now), id) == if d.joined == {} then None else Some(d);
    assert u !in Due(c, now) <==> u in d.joined;
  }

  // ---------- who let a participant in ----------

  /** Event `k` checked the call with the user as caller or as an invited member. */
  ghost predicate InvitedAt(trace: seq<Event>, k: int, id: string, u: string) {
    && 0 <= k < |trace| && trace[k].Check? && trace[k].id == id && Passes(Exec(trace[..k]), trace[k])
    && (u == trace[k].caller || (u in trace[k].invited && u in trace[k].members && u != ""))
  }

  /** At event `k` the creator of that moment approved the user, who was waiting. */
  ghost predicate ApprovedAt(trace: seq<Event>, k: int, id: string, u: string) {
    && 0 <= k < |trace| && trace[k].Approve? && trace[k].id == id && trace[k].user == u
    && id in Exec(trace[..k]).calls && MayApprove(Exec(trace[..k]).calls[id], trace[k].judge, u)
  }

  ghost predicate Admitted(trace: seq<Event>, id: string, u: string) {
    (exists k :: InvitedAt(trace, k, id, u)) || (exists k :: ApprovedAt(trace, k, id, u))
  }

  lemma StillAdmitted(before: seq<Event>, e: Event, id: string, u: string)
    requires Admitted(before, id, u)
    ensures Admitted(before + [e], id, u)
  {
    var trace := before + [e];
    if k :| InvitedAt(before, k, id, u) {
      assert trace[..k] == before[..k];
      assert InvitedAt(trace, k, id, u);
    } else {
      var k :| ApprovedAt(before, k, id, u);
      assert trace[..k] == before[..k];
      assert ApprovedAt(trace, k, id, u);
    }
  }

  ghost predicate TakesPart(h: HubState, id: string, u: string) {
    (id in h.calls && u in h.calls[id].participants) || (id in h.drafts && u in h.drafts[id].participants)
  }

  /** Only an approval by the creator makes a participant out of somebody who was none. */
  lemma NewParticipant(c: Call, e: Event, id: string, u: string)
    requires Step(c, e, id).Some? && u !in c.participants && u in Step(c, e, id).value.participants
    ensures e.Approve? && e.id == id && e.user == u && MayApprove(c, e.judge, u)
  {
  }

  lemma HowOneTakesPart(h: HubState, e: Event, id: string, u: string)
    requires HubOk(h) && !TakesPart(h, id, u) && TakesPart(Next(h, e), id, u)
    ensures || (e.Check? && e.id == id && Passes(h, e)
                && (u == e.caller || (u in e.invited && u in e.members && u != "")))
            || (e.Approve? && e.id == id && e.user == u && id in h.calls && MayApprove(h.calls[id], e.judge, u))
  {
    if e.Check? {
      assert Passes(h, e) && e.id == id;
    } else if !e.Open? {
      NewParticipant(h.calls[id], e, id, u);
    }
  }

  /** Every participant of a call was invited by its caller out of the members of the chat, is the
      caller, or was waiting and was approved by whoever was the creator at that moment. */
  lemma {:induction false} EveryParticipantWasAdmitted(trace: seq<Event>, id: string, u: string)
    requires TakesPart(Exec(trace), id, u)
    ensures Admitted(trace, id, u)
  {
    if trace != [] {
      var before, e := trace[..|trace| - 1], trace[|trace| - 1];
      assert trace == before + [e];
      EveryRun(before);
      if TakesPart(Exec(before), id, u) {
        EveryParticipantWasAdmitted(before, id, u);
        StillAdmitted(before, e, id, u);
      } else {
        HowOneTakesPart(Exec(before), e, id, u);
        assert InvitedAt(trace, |before|, id, u) || ApprovedAt(trace, |before|, id, u);
      }
    }
  }

  // ---------- one call for one chat ----------

  /** The chat of a call, open or about to be. */
  ghost predicate IsFor(h: HubState, id: string, chat: string) {
    (id in h.calls && h.calls[id].chat == chat) || (id in h.drafts && h.drafts[id].chat == chat)
  }

  /** No check of a creation succeeds between the check and the insertion of another one for the
      same chat. */
  ghost predicate Alone(h: HubState, e: Event) {
    e.Check? && Passes(h, e) ==> forall id :: id in h.drafts ==> h.drafts[id].chat != e.chat
  }

  ghost predicate NoOverlap(trace: seq<Event>) {
    forall k :: 0 <= k < |trace| ==> Alone(Exec(trace[..k]), trace[k])
  }

  ghost predicate OneCallPerChat(h: HubState) {
    forall i, j, chat :: IsFor(h, i, chat) && IsFor(h, j, chat) ==> i == j
  }

  lemma ChatStays(h: HubState, e: Event, id: string, chat: string)
    requires HubOk(h) && IsFor(Next(h, e), id, chat)
    ensures IsFor(h, id, chat) || (e.Check? && e.id == id && e.chat == chat && Passes(h, e))
  {
    if e.Check? {
      if Passes(h, e) { DraftOk(e); }
    } else if !e.Open? && id in Next(h, e).calls {
      StepOk(h.calls[id], e, id);
    }
  }

  lemma StaysOneCall(h: HubState, e: Event)
    requires HubOk(h) && OneCallPerChat(h) && Alone(h, e)
    ensures OneCallPerChat(Next(h, e))
  {
    forall i, j, chat | IsFor(Next(h, e), i, chat) && IsFor(Next(h, e), j, chat) ensures i == j {
      ChatStays(h, e, i, chat);
      ChatStays(h, e, j, chat);
    }
  }

  lemma {:induction false} NoOverlapNoSecondCall(trace: seq<Event>)
    requires NoOverlap(trace)
    ensures OneCallPerChat(Exec(trace))
  {
    if trace != [] {
      var before, e := trace[..|trace| - 1], trace[|trace| - 1];
      PrefixesDoNotOverlap(trace, |before|);
      NoOverlapNoSecondCall(before);
      EveryRun(before);
      assert Alone(Exec(trace[..|before|]), trace[|before|]);
      StaysOneCall(Exec(before), e);
    }
  }

  lemma PrefixesDoNotOverlap(trace: seq<Event>, n: nat)
    requires NoOverlap(trace) && n <= |trace|
    ensures NoOverlap(trace[..n])
  {
    forall k | 0 <= k < n ensures Alone(Exec(trace[..n][..k]), trace[..n][k]) {
      assert trace[..n][..k] == trace[..k];
      assert Alone(Exec(trace[..k]), trace[k]);
    }
  }

  /** No two open calls are for one chat. */
  ghost predicate OneOpenCall(h: HubState) {
    forall i, j :: i in h.calls && j in h.calls && h.calls[i].chat == h.calls[j].chat ==> i == j
  }

  predicate OnlyOpens(events: seq<Event>) {
    forall k :: 0 <= k < |events| ==> events[k].Open?
  }

  lemma OpensDoNotOverlap(trace: seq<Event>, k: nat, more: seq<Event>)
    requires NoOverlap(trace) && k <= |trace| && OnlyOpens(more)
    ensures NoOverlap(trace[..k] + more)
  {
    var run := trace[..k] + more;
    forall n | 0 <= n < |run| ensures Alone(Exec(run[..n]), run[n]) {
      if n < k {
        assert run[..n] == trace[..n];
        assert Alone(Exec(trace[..n]), trace[n]);
      } else {
        assert run[n] == more[n - k];
      }
    }
  }

  lemma OpenBoth(h: HubState, e: Event, id: string)
    requires HubOk(h) && e.Check? && Passes(h, e) && id in h.drafts && h.drafts[id].chat == e.chat
    ensures !OneOpenCall(Next(Next(Next(h, e), Open(id)), Open(e.id)))
  {
    DraftOk(e);
    var both := Next(Next(Next(h, e), Open(id)), Open(e.id));
    assert id in both.calls && e.id in both.calls && both.calls[id].chat == both.calls[e.id].chat;
  }

  lemma ExecPrefix(trace: seq<Event>, k: nat)
    requires k < |trace|
    ensures Exec(trace[..k + 1]) == Next(Exec(trace[..k]), trace[k])
  {
    assert trace[..k + 1] == trace[..k] + [trace[k]];
    ExecMore(trace[..k], trace[k]);
  }

  lemma ExecTwo(trace: seq<Event>, d: Event, e: Event)
    ensures Exec(trace + [d, e]) == Next(Next(Exec(trace), d), e)
  {
    assert trace + [d, e] == trace + [d] + [e];
    ExecMore(trace, d);
    ExecMore(trace + [d], e);
  }

  /** Two drafts for one chat: both can be inserted next. */
  lemma OverlapCanOpenTwo(trace: seq<Event>, k: nat) returns (more: seq<Event>)
    requires k < |trace| && !Alone(Exec(trace[..k]), trace[k])
    ensures OnlyOpens(more) && !OneOpenCall(Exec(trace[..k + 1] + more))
  {
    var h, e := Exec(trace[..k]), trace[k];
    EveryRun(trace[..k]);
    var id :| id in h.drafts && h.drafts[id].chat == e.chat;
    more := [Open(id), Open(e.id)];
    ExecPrefix(trace, k);
    ExecTwo(trace[..k + 1], Open(id), Open(e.id));
    OpenBoth(h, e, id);
  }

  ghost predicate OneOpenCallAfter(trace: seq<Event>, k: nat, more: seq<Event>)
    requires k <= |trace|
  {
    OnlyOpens(more) ==> OneOpenCall(Exec(trace[..k] + more))
  }

  /** Whatever creations under way are completed next, at no moment of a run does a chat come to have two
      open calls, exactly when no two creations for one chat overlap. */
  lemma OneCallUnlessOverlap(trace: seq<Event>)
    ensures NoOverlap(trace) <==>
            forall k: nat, more :: k <= |trace| ==> OneOpenCallAfter(trace, k, more)
  {
    if NoOverlap(trace) {
      forall k: nat, more | k <= |trace| ensures OneOpenCallAfter(trace, k, more) {
        if OnlyOpens(more) {
          OpensDoNotOverlap(trace, k, more);
          NoOverlapNoSecondCall(trace[..k] + more);
          DistinctWhenOpen(Exec(trace[..k] + more));
        }
      }
    } else {
      var k :| 0 <= k < |trace| && !Alone(Exec(trace[..k]), trace[k]);
      var more := OverlapCanOpenTwo(trace, k);
      assert !OneOpenCallAfter(trace, k + 1, more);
    }
  }

  lemma DistinctWhenOpen(h: HubState)
    requires OneCallPerChat(h)
    ensures OneOpenCall(h)
  {
    forall i, j | i in h.calls && j in h.calls && h.calls[i].chat == h.calls[j].chat ensures i == j {
      assert IsFor(h, i, h.calls[i].chat) && IsFor(h, j, h.calls[i].chat);
    }
  }

  /** Creations that do overlap can: in any run, two checks for a chat without a call, followed by
      the two insertions, open two calls for it. */
  lemma OverlapOpensTwo(trace: seq<Event>, one: Event, two: Event)
    requires one.Check? && two.Check? && one.chat == two.chat && one.id != two.id
    requires Passes(Exec(trace), one) && Passes(Exec(trace), two)
    ensures var h := Exec(trace + [one] + [two] + [Open(one.id)] + [Open(two.id)]);
            one.id in h.calls && two.id in h.calls
            && h.calls[one.id].chat == one.chat && h.calls[two.id].chat == one.chat
  {
    ExecMore(trace, one);
    ExecMore(trace + [one], two);
    ExecMore(trace + [one] + [two], Open(one.id));
    ExecMore(trace + [one] + [two] + [Open(one.id)], Open(two.id));
    DraftOk(one);
    DraftOk(two);
    var h := Exec(trace + [one]);
    assert h.calls == Exec(trace).calls && h.issued == Exec(trace).issued + {one.id};
    assert Passes(h, two);
  }

  lemma ExecMore(trace: seq<Event>, e: Event)
    ensures Exec(trace + [e]) == Next(Exec(trace), e)
  {
    assert (trace + [e])[..|trace|] == trace;
  }
}
