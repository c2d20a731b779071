/** What each event of any run does to each call, told field by field and without the functions that compute it, and
    what follows for whole histories: who takes part, who waits, and when a cleanup ends a call. */
module CallLaws {
  import opened Basics
  import opened Ordering
  import opened Calls
  import opened CallRuns
  import opened CallTraces

  const SECOND := 1_000_000_000

  // ---------- one event and one call ----------

  /** The connection has been lost for fifteen seconds. */
  predicate IsLost(c: Call, u: string, now: int) {
    u in c.disconnected && now - c.disconnected[u] >= 15 * SECOND
  }

  /** The creator lets somebody in who is waiting. */
  predicate LetsIn(c: Call, e: Event, u: string) {
    e.Approve? && e.user == u && c.caller == e.judge && u in c.pending
  }

  predicate TurnsAway(c: Call, e: Event, u: string) {
    e.Reject? && e.user == u && c.caller == e.judge
  }

  predicate ComesIn(c: Call, e: Event, u: string) {
    (e.Request? && e.user == u && u in c.participants) || LetsIn(c, e, u)
  }

  predicate GoesOut(c: Call, e: Event, u: string) {
    (e.Leave? && e.user == u) || (e.Cleanup? && IsLost(c, u, e.now))
  }

  /** The creator leaves, or the last one; or the call has expired, or everybody is lost. */
  predicate Closes(c: Call, e: Event) {
    match e
    case Leave(_, u) => u in c.joined && (u == c.caller || c.joined == {u})
    case Cleanup(now) =>
      (c.expires.Some? && now > c.expires.value) || forall u :: u in c.joined ==> IsLost(c, u, now)
    case _ => false
  }

  /** Whether the user takes part, is in, and has media. */
  predicate Belongs(c: Call, e: Event, c': Call, u: string) {
    && (u in c'.participants <==> u in c.participants || LetsIn(c, e, u))
    && (u in c'.joined <==> (u in c.joined || ComesIn(c, e, u)) && !GoesOut(c, e, u))
    && (u in c'.active <==> (u in c.active || (e.Relay? && e.sender == u && u in c.joined)) && !GoesOut(c, e, u))
  }

  function Lookup<T>(m: map<string, T>, u: string): Option<T> {
    if u in m then Some(m[u]) else None
  }

  /** Since when the user waits. */
  predicate Waits(c: Call, e: Event, c': Call, u: string) {
    Lookup(c'.pending, u) ==
      if e.Request? && e.user == u && u !in c.participants then Some(e.now)
      else if LetsIn(c, e, u) || TurnsAway(c, e, u) then None
      else if e.Cleanup? && u in c.pending && e.now - c.pending[u] > 30 * SECOND then None
      else Lookup(c.pending, u)
  }

  /** Since when the connection of the user is lost. */
  predicate Connects(c: Call, e: Event, c': Call, u: string) {
    Lookup(c'.disconnected, u) ==
      if e.Lost? && e.user == u && u in c.joined then Some(e.now)
      else if ComesIn(c, e, u) || GoesOut(c, e, u) then None
      else Lookup(c.disconnected, u)
  }

  /** Users set their own microphone, or the creator that of another participant. */
  predicate SetsMic(c: Call, e: Event, u: string) {
    && e.Mute? && u in c.participants && e.actor in c.participants
    && if e.requireCreator then c.caller == e.actor && e.target == u && u != "" && u != e.actor else e.actor == u
  }

  predicate Sounds(c: Call, e: Event, c': Call, u: string) {
    Lookup(c'.muted, u) ==
      if SetsMic(c, e, u) then Some(e.muted) else if e.Cleanup? && IsLost(c, u, e.now) then None else Lookup(c.muted, u)
  }

  predicate Looks(c: Call, e: Event, c': Call, u: string) {
    Lookup(c'.video, u) ==
      if e.Film? && e.user == u && u in c.participants then Some(e.on)
      else if e.Cleanup? && IsLost(c, u, e.now) then None else Lookup(c.video, u)
  }

  /** A creator who is dropped is followed by the smallest member with a connection, if there is one. */
  ghost predicate Leads(c: Call, e: Event, c': Call) {
    if e.Cleanup? && IsLost(c, c.caller, e.now) && exists u :: u in c.joined && u !in c.disconnected
    then c'.caller in c.joined && c'.caller !in c.disconnected
         && forall u :: u in c.joined && u !in c.disconnected ==> u == c'.caller || Less(c'.caller, u)
    else c'.caller == c.caller
  }

  /** As soon as two are in, the call does not expire any more. */
  predicate Lasts(c: Call, c': Call) {
    c'.expires == if |c'.joined| > 1 then None else c.expires
  }

  predicate UserRule(c: Call, e: Event, c': Call, u: string) {
    Belongs(c, e, c', u) && Waits(c, e, c', u) && Connects(c, e, c', u) && Sounds(c, e, c', u) && Looks(c, e, c', u)
  }

  ghost predicate CallRule(c: Call, e: Event, c': Call) {
    && c'.chat == c.chat && Leads(c, e, c') && Lasts(c, c') && forall u :: UserRule(c, e, c', u)
  }

  // ---------- every event follows it ----------

  lemma AllLost(c: Call, now: int)
    ensures c.joined - Due(c, now) == {} <==> forall u :: u in c.joined ==> IsLost(c, u, now)
  {
    if forall u :: u in c.joined ==> IsLost(c, u, now) {
      forall u | u in c.joined ensures u in Due(c, now) {}
    }
    if c.joined - Due(c, now) == {} {
      forall u | u in c.joined ensures IsLost(c, u, now) { assert u !in c.joined - Due(c, now); }
    }
  }

  lemma ClosesExactly(c: Call, e: Event)
    requires CallOk(c)
    ensures After(c, e).None? <==> Closes(c, e)
  {
    if e.Cleanup? {
      AllLost(c, e.now);
      assert Dropped(Tidied(c, e.now), Due(c, e.now)).joined == c.joined - Due(c, e.now);
    } else if e.Leave? {
      assert c.joined - {e.user} == {} && e.user in c.joined <==> c.joined == {e.user};
    }
  }

  /** What a cleanup leaves, in one piece. */
  lemma CleanupLeaves(c: Call, now: int)
    requires CleanedUp(c, now).Some?
    ensures var c' := CleanedUp(c, now).value;
            && c'.(caller := c.caller) == Without(Tidied(c, now), Due(c, now))
            && c'.caller == if c.caller in Due(c, now) && Heir(c).Some? then Heir(c).value else c.caller
  {
    assert Heir(Tidied(c, now)) == Heir(c);
  }

  lemma CleanupFollows(c: Call, now: int, u: string)
    requires CallOk(c) && CleanedUp(c, now).Some?
    ensures UserRule(c, Cleanup(now), CleanedUp(c, now).value, u)
  {
    CleanupLeaves(c, now);
  }

  lemma MemberFollows(c: Call, e: Event, u: string)
    requires CallOk(c) && After(c, e).Some? && !e.Cleanup?
    ensures Belongs(c, e, After(c, e).value, u)
  {
  }

  lemma TablesFollow(c: Call, e: Event, u: string)
    requires CallOk(c) && After(c, e).Some? && !e.Cleanup?
    ensures var c' := After(c, e).value; Waits(c, e, c', u) && Connects(c, e, c', u)
  {
  }

  lemma MediaFollow(c: Call, e: Event, u: string)
    requires CallOk(c) && After(c, e).Some? && !e.Cleanup?
    ensures var c' := After(c, e).value; Sounds(c, e, c', u) && Looks(c, e, c', u)
  {
  }

  lemma AfterFollows(c: Call, e: Event)
    requires CallOk(c) && After(c, e).Some?
    ensures CallRule(c, e, After(c, e).value)
  {
    CallFollows(c, e);
    LastsLong(c, e);
    forall u ensures UserRule(c, e, After(c, e).value, u) {
      if e.Cleanup? {
        CleanupFollows(c, e.now, u);
      } else {
        MemberFollows(c, e, u);
        TablesFollow(c, e, u);
        MediaFollow(c, e, u);
      }
    }
  }

  lemma CallFollows(c: Call, e: Event)
    requires CallOk(c) && After(c, e).Some?
    ensures var c' := After(c, e).value; c'.chat == c.chat && Leads(c, e, c')
  {
    if e.Cleanup? {
      CleanupLeaves(c, e.now);
      if u :| u in c.joined && u !in c.disconnected { assert u in c.joined - c.disconnected.Keys; }
    }
  }

  lemma LastsLong(c: Call, e: Event)
    requires CallOk(c) && After(c, e).Some?
    ensures Lasts(c, After(c, e).value)
  {
    AfterOk(c, e);
    if e.Cleanup? { CleanupLeaves(c, e.now); }
  }

  /** The event is about this call. */
  predicate IsAbout(e: Event, id: string) {
    e.Cleanup? || (!e.Check? && !e.Open? && e.id == id)
  }

  /** What an event does to an open call: nothing if it is not about it; otherwise it closes it, or changes it
      according to the rule. */
  ghost predicate EventRule(h: HubState, e: Event, id: string, h': HubState)
    requires id in h.calls
  {
    if !IsAbout(e, id) then id in h'.calls && h'.calls[id] == h.calls[id]
    else if Closes(h.calls[id], e) then id !in h'.calls
    else id in h'.calls && CallRule(h.calls[id], e, h'.calls[id])
  }

  lemma NextIsStep(h: HubState, e: Event, id: string)
    requires HubOk(h) && id in h.calls
    ensures !IsAbout(e, id) ==> id in Next(h, e).calls && Next(h, e).calls[id] == h.calls[id]
    ensures IsAbout(e, id) ==>
              match After(h.calls[id], e)
              case None => id !in Next(h, e).calls
              case Some(c) => id in Next(h, e).calls && Next(h, e).calls[id] == c
  {
  }

  lemma NextFollows(h: HubState, e: Event, id: string)
    requires HubOk(h) && id in h.calls
    ensures EventRule(h, e, id, Next(h, e))
  {
    NextIsStep(h, e, id);
    if IsAbout(e, id) {
      ClosesExactly(h.calls[id], e);
      if After(h.calls[id], e).Some? { AfterFollows(h.calls[id], e); }
    }
  }

  /** Every event of every run, for every open call. */
  lemma EveryEvent(trace: seq<Event>, e: Event, id: string)
    requires id in Exec(trace).calls
    ensures EventRule(Exec(trace), e, id, Exec(trace + [e]))
  {
    EveryRun(trace);
    ExecMore(trace, e);
    NextFollows(Exec(trace), e, id);
  }

  // ---------- creation ----------

  ghost predicate MayBegin(h: HubState, e: Event)
    requires e.Check?
  {
    && e.id !in h.issued
    && (forall id :: id in h.calls ==> h.calls[id].chat != e.chat)
    && (forall u :: u in e.invited && u != "" ==> u in e.members)
  }

  /** The call as it begins: those invited and the caller take part, with camera and without being muted; only the
      caller is in; it lasts for a minute. */
  ghost predicate Begins(e: Event, c: Call)
    requires e.Check?
  {
    && c.chat == e.chat && c.caller == e.caller && c.joined == {e.caller} && c.active == {}
    && (forall u :: u in c.participants <==> u == e.caller || (u in e.invited && u != ""))
    && c.pending == map[] && c.disconnected == map[] && c.expires == Some(e.now + 60 * SECOND)
    && (forall u :: Lookup(c.muted, u) == if u in c.participants then Some(false) else None)
    && (forall u :: Lookup(c.video, u) == if u in c.participants then Some(true) else None)
  }

  /** What a check does: if it passes the call is as it begins, but not open yet; nothing else changes. */
  ghost predicate CheckRule(h: HubState, e: Event, h': HubState)
    requires e.Check?
  {
    && h'.calls == h.calls
    && (forall id :: id != e.id ==> Lookup(h'.drafts, id) == Lookup(h.drafts, id))
    && if MayBegin(h, e)
       then e.id !in h.drafts && e.id in h'.drafts && Begins(e, h'.drafts[e.id]) && h'.issued == h.issued + {e.id}
       else h' == h
  }

  lemma PassesExactly(h: HubState, e: Event)
    requires e.Check?
    ensures Passes(h, e) <==> MayBegin(h, e)
  {
  }

  lemma DraftBegins(e: Event)
    requires e.Check? && Selected(e.caller, e.invited, e.members).Some?
    ensures Begins(e, Draft(e))
  {
  }

  lemma CheckFollows(h: HubState, e: Event)
    requires HubOk(h) && e.Check?
    ensures CheckRule(h, e, Next(h, e))
  {
    PassesExactly(h, e);
    if Passes(h, e) { DraftBegins(e); }
  }

  /** A check passes exactly when its identifier is new, the chat has no open call and everybody invited is a
      member. */
  lemma EveryCheck(trace: seq<Event>, e: Event)
    requires e.Check?
    ensures CheckRule(Exec(trace), e, Exec(trace + [e]))
  {
    EveryRun(trace);
    ExecMore(trace, e);
    CheckFollows(Exec(trace), e);
  }

  /** An insertion opens a call that passed its check, as it was then. */
  lemma EveryOpening(trace: seq<Event>, id: string)
    ensures var h, h' := Exec(trace), Exec(trace + [Open(id)]);
            if id in h.drafts
            then id !in h.calls && h'.calls == h.calls[id := h.drafts[id]] && h'.drafts == h.drafts - {id}
            else h' == h
  {
    EveryRun(trace);
    ExecMore(trace, Open(id));
  }

  // ---------- who takes part ----------

  /** Open, or checked and about to begin. */
  ghost predicate Exists(h: HubState, id: string) {
    id in h.calls || id in h.drafts
  }

  /** The event makes a participant of the user: the caller or somebody invited, in a check that passes, or
      somebody who waits and is let in. */
  ghost predicate Admits(h: HubState, e: Event, id: string, u: string) {
    || (e.Check? && e.id == id && MayBegin(h, e) && (u == e.caller || (u in e.invited && u != "")))
    || (e.Approve? && e.id == id && id in h.calls && LetsIn(h.calls[id], e, u))
  }

  ghost predicate AdmittedAt(trace: seq<Event>, k: int, id: string, u: string) {
    0 <= k < |trace| && Admits(Exec(trace[..k]), trace[k], id, u)
  }

  ghost predicate EverAdmitted(trace: seq<Event>, id: string, u: string) {
    exists k :: AdmittedAt(trace, k, id, u)
  }

  lemma AdmittedBefore(before: seq<Event>, e: Event, id: string, u: string)
    ensures EverAdmitted(before + [e], id, u) <==> EverAdmitted(before, id, u) || Admits(Exec(before), e, id, u)
  {
    var trace := before + [e];
    assert trace[..|before|] == before;
    if k :| AdmittedAt(before, k, id, u) {
      assert trace[..k] == before[..k];
      assert AdmittedAt(trace, k, id, u);
    }
    if Admits(Exec(before), e, id, u) { assert AdmittedAt(trace, |before|, id, u); }
    if k :| AdmittedAt(trace, k, id, u) {
      if k < |before| {
        assert trace[..k] == before[..k];
        assert AdmittedAt(before, k, id, u);
      }
    }
  }

  /** The check that passes is the one event that makes a call of its identifier. */
  ghost predicate Creates(h: HubState, e: Event, id: string) {
    e.Check? && e.id == id && MayBegin(h, e)
  }

  lemma CreatedOnce(h: HubState, e: Event, id: string)
    requires HubOk(h)
    ensures Creates(h, e, id) ==> id !in h.issued && !Exists(h, id) && id in Next(h, e).drafts
                                  && Begins(e, Next(h, e).drafts[id]) && id !in Next(h, e).calls
    ensures !Creates(h, e, id) && Exists(Next(h, e), id) ==> Exists(h, id)
    ensures id in h.issued ==> id in Next(h, e).issued
    ensures Exists(h, id) ==> id in h.issued
  {
    if e.Check? { CheckFollows(h, e); }
  }

  /** What an event makes of a call that has begun to exist. */
  lemma ExistsOn(h: HubState, e: Event, id: string)
    requires HubOk(h) && Exists(h, id) && Exists(Next(h, e), id)
    ensures id in h.drafts && e == Open(id) ==>
              id in Next(h, e).calls && Next(h, e).calls[id] == h.drafts[id] && id !in Next(h, e).drafts
    ensures id in h.drafts && e != Open(id) ==>
              id in Next(h, e).drafts && Next(h, e).drafts[id] == h.drafts[id] && id !in Next(h, e).calls
    ensures id in h.calls ==> id in Next(h, e).calls && id !in Next(h, e).drafts && id !in h.drafts
    ensures id in h.calls && !IsAbout(e, id) ==> Next(h, e).calls[id] == h.calls[id]
    ensures id in h.calls && IsAbout(e, id) ==> CallRule(h.calls[id], e, Next(h, e).calls[id])
  {
    if id in h.calls { NextFollows(h, e, id); }
  }

  lemma TakesPartNext(h: HubState, e: Event, id: string, u: string)
    requires HubOk(h) && Exists(Next(h, e), id)
    ensures TakesPart(Next(h, e), id, u) <==> TakesPart(h, id, u) || Admits(h, e, id, u)
  {
    CreatedOnce(h, e, id);
    if Exists(h, id) {
      ExistsOn(h, e, id);
      if id in h.calls && IsAbout(e, id) { assert UserRule(h.calls[id], e, Next(h, e).calls[id], u); }
    }
  }

  /** The participants of a call, open or about to be, are exactly the caller, those invited, and those let in by
      whoever was the creator then. */
  lemma {:induction false} WhoTakesPart(trace: seq<Event>, id: string, u: string)
    ensures EverAdmitted(trace, id, u) ==> id in Exec(trace).issued
    ensures Exists(Exec(trace), id) ==> (TakesPart(Exec(trace), id, u) <==> EverAdmitted(trace, id, u))
  {
    if trace != [] {
      var before, e := trace[..|trace| - 1], trace[|trace| - 1];
      assert trace == before + [e];
      EveryRun(before);
      WhoTakesPart(before, id, u);
      AdmittedBefore(before, e, id, u);
      CreatedOnce(Exec(before), e, id);
      if Exists(Exec(trace), id) { TakesPartNext(Exec(before), e, id, u); }
    }
  }

  // ---------- who waits ----------

  /** The event makes the user wait. */
  ghost predicate Asks(h: HubState, e: Event, id: string, u: string, t: int) {
    e == Request(id, u, t) && id in h.calls && u !in h.calls[id].participants
  }

  /** The event ends a request that was made at `t`: the user asks anew, the creator of that moment lets them in or
      turns them away, or a cleanup comes more than thirty seconds later. */
  ghost predicate Settles(h: HubState, e: Event, id: string, u: string, t: int) {
    && id in h.calls
    && (|| (e.Request? && e.id == id && e.user == u)
        || (e.Approve? && e.id == id && LetsIn(h.calls[id], e, u))
        || (e.Reject? && e.id == id && TurnsAway(h.calls[id], e, u))
        || (e.Cleanup? && e.now - t > 30 * SECOND))
  }

  /** Event `k` made the user wait, and none since has ended the request. */
  ghost predicate WaitsFrom(trace: seq<Event>, k: int, id: string, u: string, t: int) {
    && 0 <= k < |trace| && Asks(Exec(trace[..k]), trace[k], id, u, t)
    && forall m :: k < m < |trace| ==> !Settles(Exec(trace[..m]), trace[m], id, u, t)
  }

  ghost predicate WaitsSince(trace: seq<Event>, id: string, u: string, t: int) {
    exists k :: WaitsFrom(trace, k, id, u, t)
  }

  lemma WaitsBefore(before: seq<Event>, e: Event, id: string, u: string, t: int)
    ensures WaitsSince(before + [e], id, u, t) <==>
            (WaitsSince(before, id, u, t) && !Settles(Exec(before), e, id, u, t)) || Asks(Exec(before), e, id, u, t)
  {
    var trace := before + [e];
    forall m | 0 <= m <= |before| ensures trace[..m] == before[..m] {}
    assert before[..|before|] == before;
    if WaitsSince(before, id, u, t) && !Settles(Exec(before), e, id, u, t) {
      var k :| WaitsFrom(before, k, id, u, t);
      assert WaitsFrom(trace, k, id, u, t);
    }
    if Asks(Exec(before), e, id, u, t) { assert WaitsFrom(trace, |before|, id, u, t); }
    if WaitsSince(trace, id, u, t) {
      var k :| WaitsFrom(trace, k, id, u, t);
      if k < |before| {
        assert !Settles(Exec(trace[..|before|]), trace[|before|], id, u, t);
        forall m | k < m < |before| ensures !Settles(Exec(before[..m]), before[m], id, u, t) {
          assert !Settles(Exec(trace[..m]), trace[m], id, u, t);
        }
        assert WaitsFrom(before, k, id, u, t);
      }
    }
  }

  /** Whoever waits does so in a call that was opened. */
  lemma WaitsInOpened(trace: seq<Event>, id: string, u: string, t: int)
    requires WaitsSince(trace, id, u, t)
    ensures id !in Exec(trace).drafts && id in Exec(trace).issued
  {
    var k :| WaitsFrom(trace, k, id, u, t);
    EveryRun(trace[..k]);
    EveryRun(trace[..|trace| - 1]);
    StaysOpened(trace, k, id);
    OpenedStays(Exec(trace[..|trace| - 1]), trace[|trace| - 1], id);
  }

  lemma WaitsNext(h: HubState, e: Event, id: string, u: string, t: int)
    requires HubOk(h) && id in h.calls && id in Next(h, e).calls
    ensures Lookup(Next(h, e).calls[id].pending, u) == Some(t) <==>
            (Lookup(h.calls[id].pending, u) == Some(t) && !Settles(h, e, id, u, t)) || Asks(h, e, id, u, t)
  {
    ExistsOn(h, e, id);
    if IsAbout(e, id) { WaitsOn(h.calls[id], e, Next(h, e).calls[id], u, t); }
  }

  lemma WaitsOn(c: Call, e: Event, c': Call, u: string, t: int)
    requires CallOk(c) && CallRule(c, e, c')
    ensures Lookup(c'.pending, u) == Some(t) <==>
            || (Lookup(c.pending, u) == Some(t)
                && !((e.Request? && e.user == u) || LetsIn(c, e, u) || TurnsAway(c, e, u)
                     || (e.Cleanup? && e.now - t > 30 * SECOND)))
            || (e.Request? && e.user == u && e.now == t && u !in c.participants)
  {
    assert UserRule(c, e, c', u);
  }

  /** A call that is about to begin has nobody waiting, and one member. */
  lemma {:induction false} DraftsAreNew(trace: seq<Event>, id: string)
    requires id in Exec(trace).drafts
    ensures Exec(trace).drafts[id].pending == map[] && |Exec(trace).drafts[id].joined| == 1
  {
    var before, e := trace[..|trace| - 1], trace[|trace| - 1];
    EveryRun(before);
    CreatedOnce(Exec(before), e, id);
    if !Creates(Exec(before), e, id) {
      ExistsOn(Exec(before), e, id);
      DraftsAreNew(before, id);
    }
  }

  /** The waiting list is what the history says: a user waits since `t` exactly if they asked then, not taking part,
      and nothing has ended the request since. So nobody who was turned away can be let in without asking again. */
  lemma {:induction false} WaitingIsHistory(trace: seq<Event>, id: string, u: string, t: int)
    requires id in Exec(trace).calls
    ensures Lookup(Exec(trace).calls[id].pending, u) == Some(t) <==> WaitsSince(trace, id, u, t)
  {
    var before, e := trace[..|trace| - 1], trace[|trace| - 1];
    assert trace == before + [e];
    EveryRun(before);
    WaitsBefore(before, e, id, u, t);
    CreatedOnce(Exec(before), e, id);
    if id in Exec(before).calls {
      WaitingIsHistory(before, id, u, t);
      WaitsNext(Exec(before), e, id, u, t);
    } else {
      ExistsOn(Exec(before), e, id);
      DraftsAreNew(before, id);
      if WaitsSince(before, id, u, t) { WaitsInOpened(before, id, u, t); }
    }
  }

  // ---------- when a cleanup ends a call ----------

  ghost predicate TwoAreIn(h: HubState, id: string) {
    id in h.calls && |h.calls[id].joined| > 1
  }

  /** At some moment so far two members were in the call. */
  ghost predicate TwoWereIn(trace: seq<Event>, id: string) {
    exists k :: 0 <= k <= |trace| && TwoAreIn(Exec(trace[..k]), id)
  }

  /** The call was checked at `t`. */
  ghost predicate CheckedAt(trace: seq<Event>, k: int, id: string, t: int) {
    0 <= k < |trace| && Creates(Exec(trace[..k]), trace[k], id) && trace[k].now == t
  }

  ghost predicate Checked(trace: seq<Event>, id: string, t: int) {
    exists k :: CheckedAt(trace, k, id, t)
  }

  lemma TwoBefore(before: seq<Event>, e: Event, id: string)
    ensures TwoWereIn(before + [e], id) <==> TwoWereIn(before, id) || TwoAreIn(Exec(before + [e]), id)
  {
    var trace := before + [e];
    assert trace[..|trace|] == trace;
    forall m | 0 <= m <= |before| ensures trace[..m] == before[..m] {}
  }

  lemma CheckedBefore(before: seq<Event>, e: Event, id: string, t: int)
    ensures Checked(before + [e], id, t) <==> Checked(before, id, t) || (Creates(Exec(before), e, id) && e.now == t)
  {
    var trace := before + [e];
    assert before[..|before|] == before;
    forall m | 0 <= m <= |before| ensures trace[..m] == before[..m] {}
    if k :| CheckedAt(before, k, id, t) { assert CheckedAt(trace, k, id, t); }
    if Creates(Exec(before), e, id) && e.now == t { assert CheckedAt(trace, |before|, id, t); }
    if k :| CheckedAt(trace, k, id, t) { if k < |before| { assert CheckedAt(before, k, id, t); } }
  }

  ghost function Expiry(h: HubState, id: string): Option<int>
    requires Exists(h, id)
  {
    if id in h.calls then h.calls[id].expires else h.drafts[id].expires
  }

  lemma ExpiryNext(h: HubState, e: Event, id: string)
    requires HubOk(h) && Exists(h, id) && Exists(Next(h, e), id)
    requires TwoAreIn(h, id) ==> Expiry(h, id) == None
    requires id in h.drafts ==> |h.drafts[id].joined| == 1
    ensures Expiry(Next(h, e), id) == if TwoAreIn(Next(h, e), id) then None else Expiry(h, id)
  {
    ExistsOn(h, e, id);
  }

  /** A call expires a minute after its check, unless two members have been in it. */
  lemma {:induction false} ExpiryIsHistory(trace: seq<Event>, id: string, t: int)
    ensures TwoWereIn(trace, id) || Checked(trace, id, t) ==> id in Exec(trace).issued
    ensures Exists(Exec(trace), id) ==>
              (Expiry(Exec(trace), id) == Some(t + 60 * SECOND) <==> !TwoWereIn(trace, id) && Checked(trace, id, t))
    ensures Exists(Exec(trace), id) && TwoWereIn(trace, id) ==> Expiry(Exec(trace), id) == None
    ensures Exists(Exec(trace), id) && Expiry(Exec(trace), id).None? ==> TwoWereIn(trace, id)
  {
    if trace != [] {
      var before, e := trace[..|trace| - 1], trace[|trace| - 1];
      assert trace == before + [e];
      EveryRun(before);
      ExpiryIsHistory(before, id, t);
      TwoBefore(before, e, id);
      CheckedBefore(before, e, id, t);
      CreatedOnce(Exec(before), e, id);
      assert TwoAreIn(Exec(before), id) ==> TwoWereIn(before, id) by { assert before[..|before|] == before; }
      if Exists(Exec(before), id) && Exists(Exec(trace), id) {
        if id in Exec(before).drafts { DraftsAreNew(before, id); }
        ExpiryNext(Exec(before), e, id);
      }
      EveryRun(trace);
      CreatedOnce(Exec(trace), e, id);
    }
  }

  ghost predicate LonelyTooLong(trace: seq<Event>, id: string, now: int) {
    !TwoWereIn(trace, id) && exists t :: Checked(trace, id, t) && now > t + 60 * SECOND
  }

  ghost predicate LostTooLong(trace: seq<Event>, id: string, u: string, now: int) {
    exists d :: MarkedSince(trace, id, u, d) && now - d >= 15 * SECOND
  }

  /** A cleanup ends a call exactly when it comes more than a minute after the check and no two members have ever
      been in the call, or when every member was marked disconnected at least fifteen seconds before and has not come
      back, left or been marked again since. */
  lemma CleanupEnds(trace: seq<Event>, id: string, now: int)
    requires id in Exec(trace).calls
    ensures id !in Exec(trace + [Cleanup(now)]).calls <==>
            LonelyTooLong(trace, id, now) || forall u :: Joined(Exec(trace), id, u) ==> LostTooLong(trace, id, u, now)
  {
    EveryEvent(trace, Cleanup(now), id);
    LonelyIsHistory(trace, id, now);
    var c := Exec(trace).calls[id];
    forall u | u in c.joined ensures IsLost(c, u, now) <==> LostTooLong(trace, id, u, now) {
      LostIsHistory(trace, id, u, now);
    }
    assert forall u :: Joined(Exec(trace), id, u) <==> u in c.joined;
  }

  lemma LonelyIsHistory(trace: seq<Event>, id: string, now: int)
    requires id in Exec(trace).calls
    ensures var c := Exec(trace).calls[id];
            c.expires.Some? && now > c.expires.value <==> LonelyTooLong(trace, id, now)
  {
    var c := Exec(trace).calls[id];
    if c.expires.Some? {
      var t := c.expires.value - 60 * SECOND;
      ExpiryIsHistory(trace, id, t);
      if now > c.expires.value { assert Checked(trace, id, t) && now > t + 60 * SECOND; }
    }
    if LonelyTooLong(trace, id, now) {
      var t :| Checked(trace, id, t) && now > t + 60 * SECOND;
      ExpiryIsHistory(trace, id, t);
    }
  }

  lemma LostIsHistory(trace: seq<Event>, id: string, u: string, now: int)
    requires Joined(Exec(trace), id, u)
    ensures IsLost(Exec(trace).calls[id], u, now) <==> LostTooLong(trace, id, u, now)
  {
    var c := Exec(trace).calls[id];
    if IsLost(c, u, now) {
      MarksAreHistory(trace, id, u, c.disconnected[u]);
      assert MarkedSince(trace, id, u, c.disconnected[u]);
    }
    if d :| MarkedSince(trace, id, u, d) && now - d >= 15 * SECOND { MarksAreHistory(trace, id, u, d); }
  }
}
