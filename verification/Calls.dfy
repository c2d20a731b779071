/** One group call as a value, and what each operation of the hub does to it. Times are in
    nanoseconds and are an argument of the operations that read the clock. */
module Calls {
  import opened Basics
  import opened Ordering

  /** How long a lost connection is forgiven. */
  const GRACE := 15_000_000_000
  /** How long a request to join may wait. */
  const REQUEST_TIMEOUT := 30_000_000_000
  /** How long a call with nobody but its creator lasts. */
  const LONELY_TIMEOUT := 60_000_000_000

  datatype Call = Call(
    chat: string, caller: string, participants: set<string>, pending: map<string, int>, joined: set<string>,
    active: set<string>, muted: map<string, bool>, video: map<string, bool>, disconnected: map<string, int>,
    expires: Option<int>)

  // ---------- one operation at a time ----------

  function Fresh(chat: string, caller: string, selected: set<string>, now: int): Call {
    Call(chat, caller, selected, map[], {caller}, {}, map u | u in selected :: false, map u | u in selected :: true,
         map[], Some(now + LONELY_TIMEOUT))
  }

  /** A participant enters; as soon as two are in, the call no longer expires. */
  function Entered(c: Call, u: string): Call {
    c.(joined := c.joined + {u}, disconnected := c.disconnected - {u},
       expires := if |c.joined + {u}| > 1 then None else c.expires)
  }

  /** Whoever is a participant enters at once, anybody else has to wait for the creator. */
  function Requested(c: Call, u: string, now: int): Call {
    if u in c.participants then Entered(c, u) else c.(pending := c.pending[u := now])
  }

  predicate MayApprove(c: Call, judge: string, u: string) {
    c.caller == judge && u in c.pending
  }

  function Approved(c: Call, u: string): Call {
    Entered(c.(pending := c.pending - {u}, participants := c.participants + {u}), u)
  }

  function Rejected(c: Call, u: string): Call {
    c.(pending := c.pending - {u})
  }

  function Departed(c: Call, u: string): Call {
    c.(joined := c.joined - {u}, active := c.active - {u}, disconnected := c.disconnected - {u})
  }

  /** Leaving ends the call for everybody if the creator leaves, or the last one. */
  predicate EndsWith(c: Call, u: string) {
    c.caller == u || c.joined - {u} == {}
  }

  predicate MayRelay(c: Call, sender: string) {
    sender in c.participants && sender in c.joined
  }

  function Relayed(c: Call, sender: string): Call {
    c.(active := c.active + {sender})
  }

  /** Whose microphone is set: one's own, or that of another participant by the creator. */
  function MicOf(c: Call, actor: string, target: string, requireCreator: bool): Option<string> {
    if actor !in c.participants then None
    else if !requireCreator then Some(actor)
    else if c.caller == actor && target != "" && target != actor && target in c.participants then Some(target)
    else None
  }

  function Muted(c: Call, u: string, muted: bool): Call {
    c.(muted := c.muted[u := muted])
  }

  function Filmed(c: Call, u: string, on: bool): Call {
    c.(video := c.video[u := on])
  }

  function Marked(c: Call, u: string, now: int): Call {
    if u in c.joined then c.(disconnected := c.disconnected[u := now]) else c
  }

  // ---------- the periodic cleanup ----------

  predicate Expired(c: Call, now: int) {
    c.expires.Some? && now > c.expires.value
  }

  /** The requests that waited too long. */
  function Stale(c: Call, now: int): set<string> {
    set u | u in c.pending && now - c.pending[u] > REQUEST_TIMEOUT
  }

  /** The members whose connection has been lost for the whole grace period. */
  function Due(c: Call, now: int): set<string> {
    set u | u in c.disconnected && now - c.disconnected[u] >= GRACE
  }

  /** The smallest identifier of a set. */
  ghost function Least(s: set<string>): (m: Option<string>)
    ensures m.None? <==> s == {}
    ensures m.Some? ==> IsLeast(m.value, s)
  {
    if s == {} then None else LeastExists(s); var m :| IsLeast(m, s); Some(m)
  }

  /** Who takes over: the smallest joined member whose connection is not lost. */
  ghost function Heir(c: Call): Option<string> {
    Least(c.joined - c.disconnected.Keys)
  }

  function Without(c: Call, gone: set<string>): Call {
    c.(joined := c.joined - gone, active := c.active - gone, muted := c.muted - gone, video := c.video - gone,
       disconnected := c.disconnected - gone)
  }

  /** Drops one member; a dropped creator is replaced at once if somebody can take over. */
  ghost function DropOne(c: Call, u: string): Call {
    var d := Without(c, {u});
    if c.caller == u && Heir(d).Some? then d.(caller := Heir(d).value) else d
  }

  /** Drops members in some order, and stops when nobody is left. */
  ghost function DropInOrder(c: Call, order: seq<string>): Call
    decreases order
  {
    if order == [] then c else
      var d := DropOne(c, order[0]);
      if d.joined == {} then d else DropInOrder(d, order[1..])
  }

  /** Drops members all at once. */
  ghost function Dropped(c: Call, gone: set<string>): Call {
    var d := Without(c, gone);
    if c.caller in gone && Heir(c).Some? then d.(caller := Heir(c).value) else d
  }

  function Tidied(c: Call, now: int): Call {
    c.(pending := c.pending - Stale(c, now))
  }

  /** What is left of a call after a cleanup, if anything is. */
  ghost function CleanedUp(c: Call, now: int): Option<Call> {
    if Expired(c, now) then None else
      var d := Dropped(Tidied(c, now), Due(c, now));
      if d.joined == {} then None else Some(d)
  }

  // ---------- the order of the map does not matter ----------

  lemma WithoutMore(c: Call, gone: set<string>, u: string)
    ensures Without(Without(c, gone), {u}) == Without(c, gone + {u})
  {
    assert c.joined - gone - {u} == c.joined - (gone + {u});
    assert c.active - gone - {u} == c.active - (gone + {u});
    assert c.muted - gone - {u} == c.muted - (gone + {u});
    assert c.video - gone - {u} == c.video - (gone + {u});
    assert c.disconnected - gone - {u} == c.disconnected - (gone + {u});
  }

  /** Whoever is dropped was disconnected, so dropping does not change who can take over. */
  lemma HeirStays(c: Call, gone: set<string>)
    requires gone <= c.disconnected.Keys
    ensures Heir(Without(c, gone)) == Heir(c)
  {
    assert (c.joined - gone) - (c.disconnected - gone).Keys == c.joined - c.disconnected.Keys;
  }

  lemma DropMore(c: Call, gone: set<string>, u: string)
    requires gone <= c.disconnected.Keys && u in c.disconnected && u !in gone
    ensures DropOne(Dropped(c, gone), u) == Dropped(c, gone + {u})
  {
    WithoutMore(c, gone, u);
    HeirStays(c, gone + {u});
    if Heir(c).Some? { assert Heir(c).value !in c.disconnected.Keys; }
    assert Without(Dropped(c, gone), {u}) == Without(c, gone + {u}).(caller := Dropped(c, gone).caller);
    HeirOfOtherCaller(Without(c, gone + {u}), Dropped(c, gone).caller);
  }

  lemma HeirOfOtherCaller(c: Call, caller: string)
    ensures Heir(c.(caller := caller)) == Heir(c)
  {
  }

  lemma {:induction false} DropFrom(c: Call, gone: set<string>, order: seq<string>)
    requires c.disconnected.Keys <= c.joined
    requires NoRepeats(order) && Elements(order) !! gone && Elements(order) + gone <= c.disconnected.Keys
    requires order != [] ==> Dropped(c, gone).joined != {}
    ensures DropInOrder(Dropped(c, gone), order) == Dropped(c, gone + Elements(order))
    decreases order
  {
    if order == [] {
      assert gone + Elements(order) == gone;
    } else {
      var u, rest := order[0], order[1..];
      HeadAndRest(order);
      DropMore(c, gone, u);
      assert gone + {u} + Elements(rest) == gone + Elements(order);
      if Dropped(c, gone + {u}).joined == {} {
        NobodyLeft(c, gone + {u}, Elements(rest));
      } else {
        DropFrom(c, gone + {u}, rest);
      }
    }
  }

  lemma HeadAndRest(s: seq<string>)
    requires NoRepeats(s) && s != []
    ensures NoRepeats(s[1..]) && s[0] in Elements(s) && s[0] !in Elements(s[1..])
            && Elements(s) == {s[0]} + Elements(s[1..])
  {
    assert s == [s[0]] + s[1..];
    forall i | 0 <= i < |s| - 1 ensures s[1..][i] != s[0] { assert s[1..][i] == s[i + 1]; }
  }

  lemma NobodyLeft(c: Call, gone: set<string>, more: set<string>)
    requires c.disconnected.Keys <= c.joined && more !! gone && more <= c.disconnected.Keys && c.joined - gone == {}
    ensures more == {}
  {
    assert more <= c.joined - gone;
  }

  /** In whatever order the map yields the members that are due: the joined members become the old
      ones without those, a dropped creator is followed by the smallest member whose connection is
      not lost, if there is one, and nothing else depends on the order. */
  lemma OrderDoesNotMatter(c: Call, order: seq<string>, now: int)
    requires c.disconnected.Keys <= c.joined && c.joined != {}
    requires NoRepeats(order) && Elements(order) == Due(c, now)
    ensures var d := DropInOrder(c, order);
            && d.joined == c.joined - Due(c, now)
            && (c.caller !in Due(c, now) ==> d.caller == c.caller)
            && (c.caller in Due(c, now) && c.joined > c.disconnected.Keys ==>
                  IsLeast(d.caller, c.joined - c.disconnected.Keys))
            && (c.caller in Due(c, now) && c.joined == c.disconnected.Keys ==> d.caller == c.caller)
            && d == Dropped(c, Due(c, now))
  {
    NothingDropped(c);
    DropFrom(c, {}, order);
    assert {} + Elements(order) == Due(c, now);
    if c.joined > c.disconnected.Keys { assert c.joined - c.disconnected.Keys != {}; }
  }

  lemma NothingDropped(c: Call)
    ensures Dropped(c, {}) == c
  {
    assert c.joined - {} == c.joined && c.active - {} == c.active;
    assert c.muted - {} == c.muted && c.video - {} == c.video && c.disconnected - {} == c.disconnected;
  }

  // ---------- what every operation keeps ----------

  ghost predicate CallOk(c: Call) {
    && c.active <= c.joined && c.disconnected.Keys <= c.joined
    && c.joined != {} && c.joined <= c.participants
    && c.pending.Keys !! c.participants
    && c.caller in c.participants
    && (c.expires.Some? ==> c.joined == {c.caller})
    && c.muted.Keys <= c.participants && c.video.Keys <= c.participants
  }

  lemma FreshOk(chat: string, caller: string, selected: set<string>, now: int)
    requires caller in selected
    ensures CallOk(Fresh(chat, caller, selected, now))
  {
  }

  lemma EnteredOk(c: Call, u: string)
    requires CallOk(c) && u in c.participants
    ensures CallOk(Entered(c, u))
  {
    if u in c.joined {
      assert c.joined + {u} == c.joined;
    } else {
      var v :| v in c.joined;
      TwoElements(c.joined + {u}, u, v);
    }
  }

  lemma TwoElements(s: set<string>, u: string, v: string)
    requires u in s && v in s && u != v
    ensures |s| > 1
  {
    assert {u, v} <= s;
    assert |s - {u, v}| + |{u, v}| == |s|;
  }

  lemma ApprovedOk(c: Call, judge: string, u: string)
    requires CallOk(c) && MayApprove(c, judge, u)
    ensures CallOk(Approved(c, u))
  {
    EnteredOk(c.(pending := c.pending - {u}, participants := c.participants + {u}, expires := c.expires), u);
  }

  lemma DepartedOk(c: Call, u: string)
    requires CallOk(c) && !EndsWith(c, u) && u in c.joined
    ensures CallOk(Departed(c, u))
  {
  }

  lemma DroppedOk(c: Call, gone: set<string>)
    requires CallOk(c) && gone <= c.disconnected.Keys && c.joined - gone != {}
    ensures CallOk(Dropped(c, gone))
  {
    if c.expires.Some? { assert c.joined - gone <= {c.caller}; }
  }

  lemma CleanedUpOk(c: Call, now: int)
    requires CallOk(c) && CleanedUp(c, now).Some?
    ensures CallOk(CleanedUp(c, now).value)
  {
    var t := Tidied(c, now);
    assert CallOk(t);
    DroppedOk(t, Due(c, now));
  }

  /** The timeout of a lonely call never ends a call that anybody but the creator is in. */
  lemma OnlyLonelyCallsExpire(c: Call, now: int)
    requires CallOk(c) && Expired(c, now)
    ensures c.joined == {c.caller} && |c.joined| == 1
  {
  }
}
