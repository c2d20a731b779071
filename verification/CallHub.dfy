/** The hub and its sessions as they are updated in place. Each operation is proved to do to the
    whole table of calls what its event does. */
module CallHub {
  import opened Basics
  import opened Ordering
  import opened Calls
  import opened CallRuns

  datatype CallError =
    | NoSuchCall | ChatBusy | NotAMember | NotCreator | NoRequest | NotParticipant | NotJoined
    | SignalToSelf | TargetNotJoined | NoTarget | OwnMic | TargetNotParticipant

  datatype Result<+T> = Ok(value: T) | Err(error: CallError)

  function ErrorOf<T>(r: Result<T>): Option<CallError> {
    match r case Ok(_) => None case Err(e) => Some(e)
  }

  /** When an actor may not set a microphone, and what is wrong then. */
  predicate MicErrors(c: Call, actor: string, target: string, requireCreator: bool, e: Option<CallError>) {
    var isCreator := actor in c.participants && c.caller == actor;
    && (e.None? <==> MicOf(c, actor, target, requireCreator).Some?)
    && (e == Some(NotParticipant) <==> actor !in c.participants)
    && (e == Some(NotCreator) <==> actor in c.participants && requireCreator && c.caller != actor)
    && (e == Some(NoTarget) <==> requireCreator && isCreator && target == "")
    && (e == Some(OwnMic) <==> requireCreator && isCreator && target != "" && target == actor)
    && (e == Some(TargetNotParticipant) <==>
          requireCreator && isCreator && target != "" && target != actor && target !in c.participants)
  }

  datatype JoinOutcome = JoinOutcome(joinedNow: bool, joinedIds: seq<string>)
  datatype ApproveOutcome = ApproveOutcome(participantIds: seq<string>, joinedIds: seq<string>)
  datatype EndOutcome = EndOutcome(ended: bool, notifyJoined: seq<string>, notifyParticipants: seq<string>)
  datatype Change = Change(changed: bool, notify: seq<string>)

  /** The identifiers of a set in ascending order: `JoinedIDs` and its likes. */
  method SortedIds(s: set<string>) returns (ids: seq<string>)
    ensures Lists(ids, s)
  {
    var todo, found := s, [];
    while todo != {}
      invariant Elements(found) + todo == s
      decreases todo
    {
      var id :| id in todo;
      todo := todo - {id};
      assert Elements(found + [id]) == Elements(found) + {id};
      found := found + [id];
    }
    ids := Sorted(found);
  }

  class GroupCallSession {
    const chatId: string
    var callerId: string
    var participants: set<string>
    var pendingRequests: map<string, int>
    var joined: set<string>
    var activeParticipants: set<string>
    var muted: map<string, bool>
    var videoEnabled: map<string, bool>
    var disconnectedAt: map<string, int>
    var expiresAt: Option<int>

    ghost function Value(): Call
      reads this
    {
      Call(chatId, callerId, participants, pendingRequests, joined, activeParticipants, muted, videoEnabled,
           disconnectedAt, expiresAt)
    }

    constructor (chat: string, caller: string, selected: set<string>, now: int)
      requires caller in selected
      ensures Value() == Fresh(chat, caller, selected, now)
    {
      chatId, callerId, participants := chat, caller, selected;
      pendingRequests, joined, activeParticipants := map[], {caller}, {};
      muted := map u | u in selected :: false;
      videoEnabled := map u | u in selected :: true;
      disconnectedAt, expiresAt := map[], Some(now + LONELY_TIMEOUT);
    }

    method Enter(user: string)
      modifies this
      ensures Value() == Entered(old(Value()), user)
    {
      joined := joined + {user};
      disconnectedAt := disconnectedAt - {user};
      if |joined| > 1 {
        expiresAt := None;
      }
    }

    /** Whoever comes first among the joined members whose connection is not lost. */
    method FirstJoined() returns (next: Option<string>)
      ensures next == Heir(Value())
    {
      var ids := SortedIds(joined);
      for i := 0 to |ids|
        invariant forall j :: 0 <= j < i ==> ids[j] in disconnectedAt
      {
        if ids[i] !in disconnectedAt {
          FirstIsHeir(ids, i, joined, disconnectedAt.Keys);
          return Some(ids[i]);
        }
      }
      NobodyIsHeir(ids, joined, disconnectedAt.Keys);
      return None;
    }

    method Drop(user: string)
      requires user in disconnectedAt
      modifies this
      ensures Value() == DropOne(old(Value()), user)
    {
      disconnectedAt := disconnectedAt - {user};
      joined := joined - {user};
      activeParticipants := activeParticipants - {user};
      muted := muted - {user};
      videoEnabled := videoEnabled - {user};
      if callerId == user {
        var next := FirstJoined();
        if next.Some? {
          callerId := next.value;
        }
      }
    }

    /** Forgets the requests that have waited too long. */
    method ExpireRequests(now: int)
      modifies this
      ensures Value() == Tidied(old(Value()), now)
    {
      ghost var before := pendingRequests;
      var todo := pendingRequests.Keys;
      while todo != {}
        invariant todo <= before.Keys
        invariant pendingRequests == before - (Stale(old(Value()), now) - todo)
        invariant Value() == old(Value()).(pending := pendingRequests)
        decreases todo
      {
        var user :| user in todo;
        todo := todo - {user};
        if now - pendingRequests[user] > REQUEST_TIMEOUT {
          pendingRequests := pendingRequests - {user};
        }
      }
      assert Stale(old(Value()), now) - {} == Stale(old(Value()), now);
    }

    /** Drops the members whose connection has been lost too long, in whatever order they come, and
        says whether that leaves nobody. */
    method DropLost(now: int) returns (ended: bool)
      requires CallOk(Value())
      modifies this
      ensures Value() == Dropped(old(Value()), Due(old(Value()), now))
      ensures ended <==> joined == {}
    {
      ghost var start := Value();
      ghost var gone: set<string> := {};
      var todo := disconnectedAt.Keys;
      ended := false;
      NothingDropped(start);
      while todo != {} && !ended
        invariant todo <= start.disconnected.Keys && gone == Due(start, now) - todo
        invariant Value() == Dropped(start, gone)
        invariant ended <==> joined == {}
        decreases todo
      {
        var user :| user in todo;
        todo := todo - {user};
        if now - disconnectedAt[user] < GRACE {
          assert gone == Due(start, now) - todo;
          continue;
        }
        Drop(user);
        DropMore(start, gone, user);
        gone := gone + {user};
        ended := joined == {};
      }
      if ended {
        NobodyLeft(start, gone, Due(start, now) - gone);
      }
      assert gone == Due(start, now);
    }

    method RequestJoin(user: string, now: int) returns (out: JoinOutcome)
      modifies this
      ensures Value() == Requested(old(Value()), user, now)
      ensures out.joinedNow <==> user in participants
      ensures out.joinedNow ==> Lists(out.joinedIds, joined)
    {
      if user in participants {
        Enter(user);
        var ids := SortedIds(joined);
        return JoinOutcome(true, ids);
      }
      pendingRequests := pendingRequests[user := now];
      return JoinOutcome(false, []);
    }

    method ApproveJoin(user: string) returns (out: ApproveOutcome)
      modifies this
      ensures Value() == Approved(old(Value()), user)
      ensures Lists(out.participantIds, participants) && Lists(out.joinedIds, joined)
    {
      pendingRequests := pendingRequests - {user};
      participants := participants + {user};
      Enter(user);
      var participantIds := SortedIds(participants);
      var joinedIds := SortedIds(joined);
      out := ApproveOutcome(participantIds, joinedIds);
    }

    method RejectJoin(user: string)
      modifies this
      ensures Value() == Rejected(old(Value()), user)
    {
      pendingRequests := pendingRequests - {user};
    }

    /** The end of the call for everybody; the session itself is left as it is. */
    method EndForAll() returns (out: EndOutcome)
      ensures out.ended && Lists(out.notifyJoined, joined) && Lists(out.notifyParticipants, participants)
    {
      var joinedIds := SortedIds(joined);
      var participantIds := SortedIds(participants);
      out := EndOutcome(true, joinedIds, participantIds);
    }

    method Leave(user: string) returns (out: EndOutcome)
      modifies this
      ensures Value() == Departed(old(Value()), user)
      ensures (out.ended <==> joined == {})
      ensures Lists(out.notifyJoined, joined) && Lists(out.notifyParticipants, participants)
    {
      joined := joined - {user};
      activeParticipants := activeParticipants - {user};
      disconnectedAt := disconnectedAt - {user};
      var joinedIds := SortedIds(joined);
      var participantIds := SortedIds(participants);
      out := EndOutcome(|joined| == 0, joinedIds, participantIds);
    }

    /** Notes that the sender has media and finds out who is to get the signal. The note is kept
        even if the target turns out to be no good. */
    method RelaySignal(sender: string, target: string) returns (r: Result<seq<string>>)
      modifies this
      ensures Value() == Relayed(old(Value()), sender)
      ensures r == Err(SignalToSelf) <==> target != "" && target == sender
      ensures r == Err(TargetNotJoined) <==> target != "" && target != sender && target !in joined
      ensures r.Err? ==> r.error.SignalToSelf? || r.error.TargetNotJoined?
      ensures r.Ok? ==> Lists(r.value, if target == "" then joined - {sender} else {target})
    {
      activeParticipants := activeParticipants + {sender};
      if target != "" {
        if target == sender {
          return Err(SignalToSelf);
        }
        if target !in joined {
          return Err(TargetNotJoined);
        }
        return Ok([target]);
      }
      var recipients := SortedIds(joined - {sender});
      return Ok(recipients);
    }

    /** Whose microphone is meant, and whether the actor may set it. */
    method MicTarget(actor: string, target: string, requireCreator: bool) returns (r: Result<string>)
      ensures MicErrors(Value(), actor, target, requireCreator, ErrorOf(r))
      ensures r.Ok? ==> MicOf(Value(), actor, target, requireCreator) == Some(r.value)
    {
      if actor !in participants {
        return Err(NotParticipant);
      }
      if !requireCreator {
        return Ok(actor);
      }
      if callerId != actor {
        return Err(NotCreator);
      }
      if target == "" {
        return Err(NoTarget);
      }
      if target == actor {
        return Err(OwnMic);
      }
      if target !in participants {
        return Err(TargetNotParticipant);
      }
      return Ok(target);
    }

    method SetMuted(user: string, mute: bool) returns (out: Change)
      modifies this
      ensures Value() == Calls.Muted(old(Value()), user, mute)
      ensures out.changed <==> Value() != old(Value())
      ensures out.changed ==> Lists(out.notify, joined)
    {
      if user in muted && muted[user] == mute {
        assert muted[user := mute] == muted;
        return Change(false, []);
      }
      muted := muted[user := mute];
      var notify := SortedIds(joined);
      return Change(true, notify);
    }

    method SetVideo(user: string, on: bool) returns (out: Change)
      modifies this
      ensures Value() == Filmed(old(Value()), user, on)
      ensures out.changed <==> Value() != old(Value())
      ensures out.changed ==> Lists(out.notify, joined)
    {
      if user in videoEnabled && videoEnabled[user] == on {
        assert videoEnabled[user := on] == videoEnabled;
        return Change(false, []);
      }
      videoEnabled := videoEnabled[user := on];
      var notify := SortedIds(joined);
      return Change(true, notify);
    }

    method MarkLost(user: string, now: int) returns (marked: bool)
      modifies this
      ensures Value() == Marked(old(Value()), user, now)
      ensures marked <==> user in joined
    {
      if user !in joined {
        return false;
      }
      disconnectedAt := disconnectedAt[user := now];
      return true;
    }

    /** The part of the cleanup that concerns this session; says whether the session is over. */
    method Cleanup(now: int) returns (over: bool)
      requires CallOk(Value())
      modifies this
      ensures over <==> CleanedUp(old(Value()), now).None?
      ensures !over ==> Value() == CleanedUp(old(Value()), now).value
    {
      if expiresAt.Some? && now > expiresAt.value {
        return true;
      }
      ghost var c := Value();
      ExpireRequests(now);
      assert CallOk(Value()) && Due(Tidied(c, now), now) == Due(c, now);
      over := DropLost(now);
    }
  }

  lemma FirstIsHeir(ids: seq<string>, i: nat, joined: set<string>, lost: set<string>)
    requires Lists(ids, joined) && i < |ids| && ids[i] !in lost && forall j :: 0 <= j < i ==> ids[j] in lost
    ensures Least(joined - lost) == Some(ids[i])
  {
    assert ids[i] in Elements(ids) && ids[i] in joined - lost;
    forall x | x in joined - lost ensures x == ids[i] || Less(ids[i], x) {
      assert x in Elements(ids);
      var j :| 0 <= j < |ids| && ids[j] == x;
    }
    LeastIsUnique(ids[i], Least(joined - lost).value, joined - lost);
  }

  lemma NobodyIsHeir(ids: seq<string>, joined: set<string>, lost: set<string>)
    requires Lists(ids, joined) && forall j :: 0 <= j < |ids| ==> ids[j] in lost
    ensures Least(joined - lost) == None
  {
    forall x | x in joined ensures x in lost { assert x in Elements(ids); }
    assert joined - lost == {};
  }

  // ---------- what an event does to the table ----------

  /** What is left of a call when somebody leaves. */
  ghost function LeftBy(c: Call, user: string): Option<Call> {
    if user !in c.joined then Some(c) else if EndsWith(c, user) then None else Some(Departed(c, user))
  }

  lemma OpenNext(h: HubState, id: string)
    requires id in h.drafts
    ensures Next(h, Open(id)).calls == h.calls[id := h.drafts[id]]
  {
  }

  /** An event of a call that is not there changes nothing. */
  lemma MovesNothing(calls: map<string, Call>, e: Event)
    requires !e.Check? && !e.Open? && !e.Cleanup? && e.id !in calls
    ensures Moved(calls, e) == calls
  {
    MovedOne(calls, e, e.id);
  }

  /** An event of one call makes `c` of that call, as the event says, and of no other call anything. */
  lemma Moves(calls: map<string, Call>, e: Event, c: Option<Call>)
    requires !e.Check? && !e.Open? && !e.Cleanup? && e.id in calls && After(calls[e.id], e) == c
    ensures c.Some? ==> Moved(calls, e) == calls[e.id := c.value]
    ensures c.None? ==> Moved(calls, e) == calls - {e.id}
    ensures c == Some(calls[e.id]) ==> Moved(calls, e) == calls
    ensures c.Some? && CallOk(calls[e.id]) ==> CallOk(c.value)
  {
    MovedOne(calls, e, e.id);
    assert calls[e.id := calls[e.id]] == calls;
    if c.Some? && CallOk(calls[e.id]) { StepOk(calls[e.id], e, e.id); }
  }

  lemma MovedOne(calls: map<string, Call>, e: Event, id: string)
    requires forall i :: i in calls && Concerns(e, i) ==> i == id
    ensures id !in calls ==> Moved(calls, e) == calls
    ensures id in calls ==>
              match Step(calls[id], e, id)
              case Some(c) => Moved(calls, e) == calls[id := c] case None => Moved(calls, e) == calls - {id}
  {
  }

  /** The table of calls when those in `todo` are still to be cleaned up. */
  ghost function Halfway(calls: map<string, Call>, todo: set<string>, now: int): map<string, Call> {
    map id | id in calls && (id in todo || CleanedUp(calls[id], now).Some?) ::
      if id in todo then calls[id] else CleanedUp(calls[id], now).value
  }

  lemma HalfwayOne(calls: map<string, Call>, todo: set<string>, id: string, now: int)
    requires id in calls && id in todo
    ensures id in Halfway(calls, todo, now) && Halfway(calls, todo, now)[id] == calls[id]
    ensures Halfway(calls, todo - {id}, now) ==
            match CleanedUp(calls[id], now)
            case Some(c) => Halfway(calls, todo, now)[id := c] case None => Halfway(calls, todo, now) - {id}
  {
  }

  lemma HalfwayStarts(calls: map<string, Call>, now: int)
    ensures Halfway(calls, calls.Keys, now) == calls
  {
  }

  lemma HalfwayEnds(calls: map<string, Call>, now: int)
    ensures Halfway(calls, {}, now) == Moved(calls, Event.Cleanup(now))
  {
    var e := Event.Cleanup(now);
    assert forall id :: id in calls ==> Step(calls[id], e, id) == CleanedUp(calls[id], now);
  }

  // ---------- the table of calls ----------

  class Hub {
    var groupCalls: map<string, GroupCallSession>

    /** The table by value. */
    ghost var calls: map<string, Call>

    ghost function Sessions(): set<GroupCallSession>
      reads this`groupCalls
    {
      set id | id in groupCalls :: groupCalls[id]
    }

    /** No session is under two identifiers, and each is in order. */
    ghost predicate Valid()
      reads this, Sessions()
    {
      && groupCalls.Keys == calls.Keys
      && (forall i, j :: i in groupCalls && j in groupCalls && i != j ==> groupCalls[i] != groupCalls[j])
      && (forall i :: i in groupCalls ==> groupCalls[i].Value() == calls[i])
      && (forall i :: i in calls ==> CallOk(calls[i]))
    }

    ghost function Others(id: string): set<GroupCallSession>
      reads this`groupCalls
    {
      set i | i in groupCalls && i != id :: groupCalls[i]
    }

    /** Everything is in order except perhaps the session under one identifier. */
    ghost predicate OthersValid(id: string)
      reads this, Others(id)
    {
      && id in groupCalls && groupCalls.Keys == calls.Keys && groupCalls[id] !in Others(id)
      && (forall i, j :: i in groupCalls && j in groupCalls && i != j ==> groupCalls[i] != groupCalls[j])
      && (forall i :: i in groupCalls && i != id ==> groupCalls[i].Value() == calls[i])
      && (forall i :: i in calls && i != id ==> CallOk(calls[i]))
    }

    lemma Focus(id: string)
      requires Valid() && id in groupCalls
      ensures OthersValid(id) && groupCalls[id].Value() == calls[id] && CallOk(calls[id])
    {
    }

    /** Takes over what has become of one session. */
    ghost method Note(id: string)
      requires OthersValid(id) && CallOk(groupCalls[id].Value())
      modifies this`calls
      ensures Valid() && calls == old(calls)[id := groupCalls[id].Value()]
    {
      ghost var c := groupCalls[id].Value();
      calls := calls[id := c];
      forall i | i in groupCalls ensures groupCalls[i].Value() == calls[i] {
        if i != id { assert groupCalls[i].Value() == old(groupCalls[i].Value()); }
      }
    }

    method Remove(id: string)
      requires OthersValid(id)
      modifies this
      ensures Valid() && calls == old(calls) - {id} && groupCalls == old(groupCalls) - {id}
    {
      groupCalls := groupCalls - {id};
      calls := calls - {id};
    }

    constructor ()
      ensures Valid() && calls == map[]
    {
      groupCalls, calls := map[], map[];
    }

    method RequestJoinCall(user: string, id: string, now: int) returns (r: Result<JoinOutcome>)
      requires Valid()
      modifies this`calls, Sessions()
      ensures Valid() && calls == Moved(old(calls), Request(id, user, now))
      ensures r == Err(NoSuchCall) <==> id !in old(calls)
      ensures r.Err? ==> r.error.NoSuchCall?
      ensures r.Ok? ==> id in calls && (r.value.joinedNow <==> user in old(calls)[id].participants)
                        && (r.value.joinedNow ==> Lists(r.value.joinedIds, calls[id].joined))
    {
      if id !in groupCalls {
        MovesNothing(calls, Request(id, user, now));
        return Err(NoSuchCall);
      }
      Focus(id);
      Moves(calls, Request(id, user, now), Some(Requested(calls[id], user, now)));
      var out := groupCalls[id].RequestJoin(user, now);
      Note(id);
      return Ok(out);
    }

    method ApproveJoinCall(creator: string, user: string, id: string) returns (r: Result<ApproveOutcome>)
      requires Valid()
      modifies this`calls, Sessions()
      ensures Valid() && calls == Moved(old(calls), Approve(id, creator, user))
      ensures r == Err(NoSuchCall) <==> id !in old(calls)
      ensures r == Err(NotCreator) <==> id in old(calls) && old(calls)[id].caller != creator
      ensures r == Err(NoRequest) <==>
              id in old(calls) && old(calls)[id].caller == creator && user !in old(calls)[id].pending
      ensures r.Err? ==> r.error.NoSuchCall? || r.error.NotCreator? || r.error.NoRequest?
      ensures r.Ok? ==> id in calls && Lists(r.value.participantIds, calls[id].participants)
                        && Lists(r.value.joinedIds, calls[id].joined)
    {
      if id !in groupCalls {
        MovesNothing(calls, Approve(id, creator, user));
        return Err(NoSuchCall);
      }
      Focus(id);
      Moves(calls, Approve(id, creator, user),
            Some(if MayApprove(calls[id], creator, user) then Approved(calls[id], user) else calls[id]));
      if groupCalls[id].callerId != creator {
        return Err(NotCreator);
      }
      if user !in groupCalls[id].pendingRequests {
        return Err(NoRequest);
      }
      var out := groupCalls[id].ApproveJoin(user);
      Note(id);
      return Ok(out);
    }

    method RejectJoinCall(creator: string, user: string, id: string) returns (r: Result<()>)
      requires Valid()
      modifies this`calls, Sessions()
      ensures Valid() && calls == Moved(old(calls), Reject(id, creator, user))
      ensures r == Err(NoSuchCall) <==> id !in old(calls)
      ensures r == Err(NotCreator) <==> id in old(calls) && old(calls)[id].caller != creator
      ensures r.Err? ==> r.error.NoSuchCall? || r.error.NotCreator?
    {
      if id !in groupCalls {
        MovesNothing(calls, Reject(id, creator, user));
        return Err(NoSuchCall);
      }
      Focus(id);
      Moves(calls, Reject(id, creator, user),
            Some(if calls[id].caller == creator then Rejected(calls[id], user) else calls[id]));
      if groupCalls[id].callerId != creator {
        return Err(NotCreator);
      }
      groupCalls[id].RejectJoin(user);
      Note(id);
      return Ok(());
    }

    method EndCallByUser(user: string, id: string) returns (r: Result<EndOutcome>)
      requires Valid()
      modifies this, Sessions()
      ensures Valid() && calls == Moved(old(calls), Event.Leave(id, user))
      ensures r == Err(NoSuchCall) <==> id !in old(calls)
      ensures r == Err(NotJoined) <==> id in old(calls) && user !in old(calls)[id].joined
      ensures r.Err? ==> r.error.NoSuchCall? || r.error.NotJoined?
      ensures r.Ok? ==> && (r.value.ended <==> id !in calls)
                        && Lists(r.value.notifyJoined,
                                 if old(calls)[id].caller == user then old(calls)[id].joined
                                 else old(calls)[id].joined - {user})
                        && Lists(r.value.notifyParticipants, old(calls)[id].participants)
    {
      if id !in groupCalls {
        MovesNothing(calls, Event.Leave(id, user));
        return Err(NoSuchCall);
      }
      Focus(id);
      Moves(calls, Event.Leave(id, user), LeftBy(calls[id], user));
      if user !in groupCalls[id].joined {
        return Err(NotJoined);
      }
      var out: EndOutcome;
      if groupCalls[id].callerId == user {
        out := groupCalls[id].EndForAll();
        Remove(id);
      } else {
        out := groupCalls[id].Leave(user);
        if out.ended {
          Remove(id);
        } else {
          Note(id);
        }
      }
      return Ok(out);
    }

    method RelaySignalTargets(id: string, sender: string, target: string) returns (r: Result<seq<string>>)
      requires Valid()
      modifies this`calls, Sessions()
      ensures Valid() && calls == Moved(old(calls), Relay(id, sender))
      ensures r == Err(NoSuchCall) <==> id !in old(calls)
      ensures r == Err(NotParticipant) <==> id in old(calls) && sender !in old(calls)[id].participants
      ensures r == Err(NotJoined) <==>
              id in old(calls) && sender in old(calls)[id].participants && sender !in old(calls)[id].joined
      ensures r == Err(SignalToSelf) <==>
              id in old(calls) && MayRelay(old(calls)[id], sender) && target != "" && target == sender
      ensures r == Err(TargetNotJoined) <==>
              id in old(calls) && MayRelay(old(calls)[id], sender)
              && target != "" && target != sender && target !in old(calls)[id].joined
      ensures r.Err? ==> r.error in {NoSuchCall, NotParticipant, NotJoined, SignalToSelf, TargetNotJoined}
      ensures r.Ok? ==> id in calls && Lists(r.value, if target == "" then calls[id].joined - {sender} else {target})
    {
      if id !in groupCalls {
        MovesNothing(calls, Relay(id, sender));
        return Err(NoSuchCall);
      }
      Focus(id);
      Moves(calls, Relay(id, sender),
            Some(if MayRelay(calls[id], sender) then Relayed(calls[id], sender) else calls[id]));
      if sender !in groupCalls[id].participants {
        return Err(NotParticipant);
      }
      if sender !in groupCalls[id].joined {
        return Err(NotJoined);
      }
      r := groupCalls[id].RelaySignal(sender, target);
      Note(id);
    }

    method SetParticipantMuted(id: string, actor: string, target: string, mute: bool, requireCreator: bool)
      returns (r: Result<Change>)
      requires Valid()
      modifies this`calls, Sessions()
      ensures Valid() && calls == Moved(old(calls), Mute(id, actor, target, mute, requireCreator))
      ensures if id in old(calls) then MicErrors(old(calls)[id], actor, target, requireCreator, ErrorOf(r))
              else r == Err(NoSuchCall)
      ensures r.Ok? ==> && id in calls && (r.value.changed <==> calls[id] != old(calls)[id])
                        && (r.value.changed ==> Lists(r.value.notify, calls[id].joined))
    {
      if id !in groupCalls {
        MovesNothing(calls, Mute(id, actor, target, mute, requireCreator));
        return Err(NoSuchCall);
      }
      Focus(id);
      ghost var mic := MicOf(calls[id], actor, target, requireCreator);
      Moves(calls, Mute(id, actor, target, mute, requireCreator),
            Some(if mic.Some? then Calls.Muted(calls[id], mic.value, mute) else calls[id]));
      var user := groupCalls[id].MicTarget(actor, target, requireCreator);
      if user.Err? {
        return Err(user.error);
      }
      var out := groupCalls[id].SetMuted(user.value, mute);
      Note(id);
      return Ok(out);
    }

    method SetParticipantVideo(id: string, user: string, on: bool) returns (r: Result<Change>)
      requires Valid()
      modifies this`calls, Sessions()
      ensures Valid() && calls == Moved(old(calls), Film(id, user, on))
      ensures r == Err(NoSuchCall) <==> id !in old(calls)
      ensures r == Err(NotParticipant) <==> id in old(calls) && user !in old(calls)[id].participants
      ensures r.Err? ==> r.error.NoSuchCall? || r.error.NotParticipant?
      ensures r.Ok? ==> && id in calls && (r.value.changed <==> calls[id] != old(calls)[id])
                        && (r.value.changed ==> Lists(r.value.notify, calls[id].joined))
    {
      if id !in groupCalls {
        MovesNothing(calls, Film(id, user, on));
        return Err(NoSuchCall);
      }
      Focus(id);
      Moves(calls, Film(id, user, on),
            Some(if user in calls[id].participants then Filmed(calls[id], user, on) else calls[id]));
      if user !in groupCalls[id].participants {
        return Err(NotParticipant);
      }
      var out := groupCalls[id].SetVideo(user, on);
      Note(id);
      return Ok(out);
    }

    method MarkDisconnected(id: string, user: string, now: int) returns (marked: bool)
      requires Valid()
      modifies this`calls, Sessions()
      ensures Valid() && calls == Moved(old(calls), Lost(id, user, now))
      ensures marked <==> id in old(calls) && user in old(calls)[id].joined
    {
      if id !in groupCalls {
        MovesNothing(calls, Lost(id, user, now));
        return false;
      }
      Focus(id);
      Moves(calls, Lost(id, user, now), Some(Marked(calls[id], user, now)));
      marked := groupCalls[id].MarkLost(user, now);
      Note(id);
    }

    /** Cleans up one session and removes it if it is over. */
    method CleanupCall(id: string, now: int)
      requires Valid() && id in groupCalls
      modifies this, groupCalls[id]
      ensures Valid() && groupCalls.Keys == calls.Keys && Sessions() <= old(Sessions())
      ensures calls == match CleanedUp(old(calls)[id], now)
                       case Some(c) => old(calls)[id := c] case None => old(calls) - {id}
    {
      Focus(id);
      if CleanedUp(calls[id], now).Some? { CleanedUpOk(calls[id], now); }
      var over := groupCalls[id].Cleanup(now);
      if over {
        Remove(id);
      } else {
        Note(id);
      }
    }

    /** One cleanup of all calls, in whatever order the map yields them. */
    method CleanupStaleCalls(now: int)
      requires Valid()
      modifies this, Sessions()
      ensures Valid() && calls == Moved(old(calls), Event.Cleanup(now))
    {
      HalfwayStarts(calls, now);
      HalfwayEnds(calls, now);
      var todo := groupCalls.Keys;
      while todo != {}
        invariant Valid() && Sessions() <= old(Sessions())
        invariant todo <= groupCalls.Keys && todo <= old(calls).Keys
        invariant calls == Halfway(old(calls), todo, now)
        decreases todo
      {
        var id :| id in todo;
        HalfwayOne(old(calls), todo, id, now);
        todo := todo - {id};
        CleanupCall(id, now);
      }
    }

    /** The first half of `CreateGroupCall`: looks for a call of the chat and builds the session. The new
        identifier and the other creations under way are in `h`, which has the calls of this hub. */
    method CheckCall(id: string, chat: string, caller: string, invited: seq<string>, members: seq<string>, now: int,
                     ghost h: HubState)
      returns (r: Result<GroupCallSession>)
      requires Valid() && h.calls == calls && id !in h.issued
      ensures r == Err(ChatBusy) <==> Busy(h, chat)
      ensures r == Err(NotAMember) <==> !Busy(h, chat) && exists u :: u in invited && u != "" && u !in members
      ensures r.Err? ==> r.error.ChatBusy? || r.error.NotAMember?
      ensures r.Ok? ==> forall u :: u in r.value.participants <==> u == caller || (u in invited && u != "")
      ensures var e := Check(id, chat, caller, invited, members, now);
              if r.Ok?
              then fresh(r.value)
                   && Next(h, e) == h.(drafts := h.drafts[id := r.value.Value()], issued := h.issued + {id})
              else Next(h, e) == h
    {
      var todo := groupCalls.Keys;
      while todo != {}
        invariant todo <= groupCalls.Keys && forall id :: id in calls && id !in todo ==> calls[id].chat != chat
        decreases todo
      {
        var id :| id in todo;
        todo := todo - {id};
        assert groupCalls[id].Value() == calls[id];
        if groupCalls[id].chatId == chat {
          return Err(ChatBusy);
        }
      }
      var selected := SelectParticipants(caller, invited, members);
      if selected.None? {
        return Err(NotAMember);
      }
      var session := new GroupCallSession(chat, caller, selected.value, now);
      return Ok(session);
    }

    /** The second half: puts the session into the table under its new identifier. */
    method OpenCall(id: string, session: GroupCallSession, ghost h: HubState)
      requires Valid() && id !in groupCalls && session !in Sessions()
      requires h.calls == calls && id in h.drafts && h.drafts[id] == session.Value() && CallOk(session.Value())
      modifies this
      ensures Valid() && calls == Next(h, Open(id)).calls
    {
      OpenNext(h, id);
      Insert(id, session);
      Note(id);
    }

    method Insert(id: string, session: GroupCallSession)
      requires Valid() && id !in groupCalls && session !in Sessions()
      modifies this
      ensures OthersValid(id) && groupCalls == old(groupCalls)[id := session]
      ensures calls == old(calls)[id := session.Value()]
    {
      groupCalls, calls := groupCalls[id := session], calls[id := session.Value()];
    }
  }

  method SelectParticipants(caller: string, invited: seq<string>, members: seq<string>) returns (r: Option<set<string>>)
    ensures r == Selected(caller, invited, members)
    ensures r.Some? <==> forall u :: u in invited && u != "" ==> u in members
    ensures r.Some? ==> forall u :: u in r.value <==> u == caller || (u in invited && u != "")
  {
    var selected: set<string> := {};
    for i := 0 to |invited|
      invariant selected == set u | u in invited[..i] && u != ""
      invariant forall u :: u in invited[..i] && u != "" ==> u in members
    {
      var id := invited[i];
      assert invited[..i + 1] == invited[..i] + [id];
      if id == "" {
        continue;
      }
      if id !in members {
        assert id in invited;
        return None;
      }
      selected := selected + {id};
    }
    assert invited[..|invited|] == invited;
    return Some(selected + {caller});
  }
}
