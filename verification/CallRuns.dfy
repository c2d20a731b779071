/** The hub under any sequence of events. Every operation runs under the hub's mutex and is one
    event; only the creation of a call is two, a check and an insertion, with anything in between. */
module CallRuns {
  import opened Basics
  import opened Calls

  datatype Event =
    | Check(id: string, chat: string, caller: string, invited: seq<string>, members: seq<string>, now: int)
    | Open(id: string)
    | Request(id: string, user: string, now: int)
    | Approve(id: string, judge: string, user: string)
    | Reject(id: string, judge: string, user: string)
    | Leave(id: string, user: string)
    | Relay(id: string, sender: string)
    | Mute(id: string, actor: string, target: string, muted: bool, requireCreator: bool)
    | Film(id: string, user: string, on: bool)
    | Lost(id: string, user: string, now: int)
    | Cleanup(now: int)

  /** The open calls, the calls checked but not yet inserted, and the identifiers handed out. */
  datatype HubState = HubState(calls: map<string, Call>, drafts: map<string, Call>, issued: set<string>)

  // ---------- steps ----------

  /** Those invited, all of them members, and the caller; nobody at all if a stranger is among them. */
  function Selected(caller: string, invited: seq<string>, members: seq<string>): Option<set<string>> {
    if exists u :: u in invited && u != "" && u !in members then None
    else Some((set u | u in invited && u != "") + {caller})
  }

  predicate Busy(h: HubState, chat: string) {
    exists id :: id in h.calls && h.calls[id].chat == chat
  }

  /** Identifiers are never handed out twice. */
  predicate Passes(h: HubState, e: Event)
    requires e.Check?
  {
    e.id !in h.issued && !Busy(h, e.chat) && Selected(e.caller, e.invited, e.members).Some?
  }

  function Draft(e: Event): Call
    requires e.Check? && Selected(e.caller, e.invited, e.members).Some?
  {
    Fresh(e.chat, e.caller, Selected(e.caller, e.invited, e.members).value, e.now)
  }

  predicate Concerns(e: Event, id: string) {
    e.Cleanup? || (!e.Check? && !e.Open? && e.id == id)
  }

  /** What an event makes of a call it concerns; nothing if it closes the call. */
  ghost function After(c: Call, e: Event): Option<Call> {
    match e
    case Request(_, u, now) => Some(Requested(c, u, now))
    case Approve(_, judge, u) => Some(if MayApprove(c, judge, u) then Approved(c, u) else c)
    case Reject(_, judge, u) => Some(if c.caller == judge then Rejected(c, u) else c)
    case Leave(_, u) => if u !in c.joined then Some(c) else if EndsWith(c, u) then None else Some(Departed(c, u))
    case Relay(_, sender) => Some(if MayRelay(c, sender) then Relayed(c, sender) else c)
    case Mute(_, actor, target, muted, requireCreator) =>
      var mic := MicOf(c, actor, target, requireCreator);
      Some(if mic.Some? then Muted(c, mic.value, muted) else c)
    case Film(_, u, on) => Some(if u in c.participants then Filmed(c, u, on) else c)
    case Lost(_, u, now) => Some(Marked(c, u, now))
    case Cleanup(now) => CleanedUp(c, now)
    case _ => Some(c)
  }

  ghost function Step(c: Call, e: Event, id: string): Option<Call> {
    if Concerns(e, id) then After(c, e) else Some(c)
  }

  /** What an event makes of all the calls. */
  ghost function Moved(calls: map<string, Call>, e: Event): map<string, Call> {
    map id | id in calls && Step(calls[id], e, id).Some? :: Step(calls[id], e, id).value
  }

  ghost function Next(h: HubState, e: Event): HubState {
    match e
    case Check(id, _, _, _, _, _) =>
      if Passes(h, e) then h.(drafts := h.drafts[id := Draft(e)], issued := h.issued + {id}) else h
    case Open(id) =>
      if id in h.drafts then h.(calls := h.calls[id := h.drafts[id]], drafts := h.drafts - {id}) else h
    case _ => h.(calls := Moved(h.calls, e))
  }

  ghost function Exec(trace: seq<Event>): HubState {
    if trace == [] then HubState(map[], map[], {}) else Next(Exec(trace[..|trace| - 1]), trace[|trace| - 1])
  }

  // ---------- the invariant ----------

  /** An event keeps the invariant of a call. */
  lemma AfterOk(c: Call, e: Event)
    requires CallOk(c) && After(c, e).Some?
    ensures CallOk(After(c, e).value)
  {
    match e
    case Request(_, u, now) => if u in c.participants { EnteredOk(c, u); }
    case Approve(_, judge, u) => if MayApprove(c, judge, u) { ApprovedOk(c, judge, u); }
    case Leave(_, u) => if u in c.joined { DepartedOk(c, u); }
    case Cleanup(now) => CleanedUpOk(c, now);
    case _ =>
  }

  lemma AfterGrows(c: Call, e: Event)
    requires After(c, e).Some?
    ensures After(c, e).value.chat == c.chat && c.participants <= After(c, e).value.participants
  {
  }

  ghost predicate HubOk(h: HubState) {
    && (forall id :: id in h.calls ==> CallOk(h.calls[id]) && id in h.issued)
    && (forall id :: id in h.drafts ==> CallOk(h.drafts[id]) && id in h.issued && id !in h.calls)
  }

  lemma StepOk(c: Call, e: Event, id: string)
    requires CallOk(c) && Step(c, e, id).Some?
    ensures CallOk(Step(c, e, id).value)
    ensures Step(c, e, id).value.chat == c.chat && c.participants <= Step(c, e, id).value.participants
  {
    if Concerns(e, id) {
      AfterOk(c, e);
      AfterGrows(c, e);
    }
  }

  lemma DraftOk(e: Event)
    requires e.Check? && Selected(e.caller, e.invited, e.members).Some?
    ensures CallOk(Draft(e)) && Draft(e).chat == e.chat && Draft(e).joined == {e.caller}
            && Draft(e).disconnected == map[]
  {
    FreshOk(e.chat, e.caller, Selected(e.caller, e.invited, e.members).value, e.now);
  }

  lemma NextOk(h: HubState, e: Event)
    requires HubOk(h)
    ensures HubOk(Next(h, e)) && h.issued <= Next(h, e).issued
  {
    if e.Check? {
      if Passes(h, e) { DraftOk(e); }
    } else if !e.Open? {
      forall id | id in Next(h, e).calls ensures CallOk(Next(h, e).calls[id]) { StepOk(h.calls[id], e, id); }
    }
  }

  /** In every run: active and disconnected members have joined, somebody has joined and all who
      have are participants, nobody waits who is a participant, the creator is a participant, and a
      call that can still expire has nobody in it but its creator. */
  lemma {:induction false} EveryRun(trace: seq<Event>)
    ensures HubOk(Exec(trace))
  {
    if trace != [] {
      EveryRun(trace[..|trace| - 1]);
      NextOk(Exec(trace[..|trace| - 1]), trace[|trace| - 1]);
    }
  }

  /** A call that ends by timeout has one member, its creator. */
  lemma TimeoutEndsOnlyLonelyCalls(trace: seq<Event>, id: string, now: int)
    requires id in Exec(trace).calls && Expired(Exec(trace).calls[id], now)
    ensures Exec(trace).calls[id].joined == {Exec(trace).calls[id].caller}
  {
    EveryRun(trace);
    OnlyLonelyCallsExpire(Exec(trace).calls[id], now);
  }

  // ---------- a call is opened once ----------

  /** The call was opened: it is on or over, but not about to begin. */
  ghost predicate Opened(h: HubState, id: string) {
    id in h.issued && id !in h.drafts
  }

  lemma OpenedStays(h: HubState, e: Event, id: string)
    requires HubOk(h) && Opened(h, id)
    ensures Opened(Next(h, e), id)
    ensures id in Next(h, e).calls ==>
              && id in h.calls && Step(h.calls[id], e, id) == Some(Next(h, e).calls[id])
  {
  }

  /** Participants are never lost as long as the call lasts. */
  lemma {:induction false} ParticipantsOnlyGrow(trace: seq<Event>, k: nat, id: string)
    requires k <= |trace| && id in Exec(trace[..k]).calls && id in Exec(trace).calls
    ensures Exec(trace[..k]).calls[id].participants <= Exec(trace).calls[id].participants
    decreases |trace|
  {
    if k == |trace| {
      assert trace[..k] == trace;
    } else {
      var before, e := trace[..|trace| - 1], trace[|trace| - 1];
      assert before[..k] == trace[..k];
      EveryRun(before);
      StaysOpened(trace, k, id);
      OpenedStays(Exec(before), e, id);
      ParticipantsOnlyGrow(before, k, id);
      StepOk(Exec(before).calls[id], e, id);
    }
  }

  lemma {:induction false} StaysOpened(trace: seq<Event>, k: nat, id: string)
    requires k < |trace| && id in Exec(trace[..k]).calls
    ensures Opened(Exec(trace[..|trace| - 1]), id)
    decreases |trace|
  {
    var before := trace[..|trace| - 1];
    if k == |before| {
      EveryRun(before);
    } else {
      assert before[..k] == trace[..k];
      EveryRun(before[..|before| - 1]);
      StaysOpened(before, k, id);
      OpenedStays(Exec(before[..|before| - 1]), before[|before| - 1], id);
    }
  }
}
