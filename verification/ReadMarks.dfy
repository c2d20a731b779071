/** How far each user has read in each chat, and who has seen which message. The store keeps one
    row per chat and user; who has seen a message is computed from those rows, yet it is what the
    whole history of reads says. */
module ReadMarks {
  import opened Basics
  import opened Ordering

  datatype Key = Key(chat: string, user: string)
  /** The time of the message read last, and which message it was. */
  datatype Mark = Mark(at: int, message: string)
  /** A user was reported to have read up to a message. */
  datatype Read = Read(key: Key, at: int, message: string)

  datatype Message = Message(id: string, chat: string, sender: string, created: int, seenBy: seq<string>)

  // ---------- what the history says ----------

  /** The latest read of a user in a chat; of reads of the same time, the first. */
  function Latest(log: seq<Read>, k: Key): Option<Mark> {
    if log == [] then None else
      var before, last := Latest(log[..|log| - 1], k), log[|log| - 1];
      if last.key == k && (before.None? || last.at > before.value.at) then Some(Mark(last.at, last.message)) else before
  }

  /** The user has read that far or further in the chat. */
  ghost predicate HasRead(log: seq<Read>, k: Key, at: int) {
    exists r :: r in log && r.key == k && r.at >= at
  }

  /** The latest read is a read of the history, and no read is later. */
  lemma {:induction false} LatestIsMaximal(log: seq<Read>, k: Key)
    ensures Latest(log, k).None? <==> forall r :: r in log ==> r.key != k
    ensures Latest(log, k).Some? ==>
              && Read(k, Latest(log, k).value.at, Latest(log, k).value.message) in log
              && forall r :: r in log && r.key == k ==> r.at <= Latest(log, k).value.at
  {
    if log != [] {
      var before, last := log[..|log| - 1], log[|log| - 1];
      assert log == before + [last];
      LatestIsMaximal(before, k);
    }
  }

  lemma LatestTells(log: seq<Read>, k: Key, at: int)
    ensures HasRead(log, k, at) <==> Latest(log, k).Some? && Latest(log, k).value.at >= at
  {
    LatestIsMaximal(log, k);
  }

  /** Who has seen a message: every reader that far but its sender. */
  ghost predicate Sees(log: seq<Read>, m: Message, u: string) {
    u != m.sender && HasRead(log, Key(m.chat, u), m.created)
  }

  /** Nobody who has seen a message ever stops having seen it. */
  lemma SeenStaysSeen(log: seq<Read>, more: seq<Read>, m: Message, u: string)
    requires Sees(log, m, u)
    ensures Sees(log + more, m, u)
  {
    var r :| r in log && r.key == Key(m.chat, u) && r.at >= m.created;
    assert r in log + more;
  }

  // ---------- the store ----------

  class ReadStore {
    var rows: map<Key, Mark>
    ghost var log: seq<Read>

    ghost predicate Valid()
      reads this
    {
      forall k :: if k in rows then Latest(log, k) == Some(rows[k]) else Latest(log, k).None?
    }

    constructor ()
      ensures Valid() && log == []
    {
      rows, log := map[], [];
    }

    /** Raises the mark if the message is newer; says whether it did. */
    method UpsertChatRead(chat: string, user: string, message: string, at: int) returns (raised: bool)
      requires Valid()
      modifies this
      ensures Valid() && log == old(log) + [Read(Key(chat, user), at, message)]
      ensures raised <==> !HasRead(old(log), Key(chat, user), at)
      ensures rows == if raised then old(rows)[Key(chat, user) := Mark(at, message)] else old(rows)
    {
      var k := Key(chat, user);
      LatestTells(log, k, at);
      log := log + [Read(k, at, message)];
      assert log[..|log| - 1] == old(log);
      if k in rows {
        if !(at > rows[k].at) {
          return false;
        }
        rows := rows[k := Mark(at, message)];
        return true;
      }
      rows := rows[k := Mark(at, message)];
      return true;
    }

    /** How far everybody has read in the chat. */
    method GetChatReadWatermarks(chat: string) returns (marks: map<string, int>)
      requires Valid()
      ensures forall u, at :: (u in marks && marks[u] >= at) <==> HasRead(log, Key(chat, u), at)
    {
      marks := map[];
      var todo := rows.Keys;
      while todo != {}
        invariant todo <= rows.Keys
        invariant forall u :: u in marks <==> Key(chat, u) in rows && Key(chat, u) !in todo
        invariant forall u :: u in marks ==> marks[u] == rows[Key(chat, u)].at
        decreases todo
      {
        var k :| k in todo;
        todo := todo - {k};
        if k.chat == chat {
          marks := marks[k.user := rows[k].at];
        }
      }
      forall u, at ensures (u in marks && marks[u] >= at) <==> HasRead(log, Key(chat, u), at) {
        LatestTells(log, Key(chat, u), at);
      }
    }
  }

  // ---------- marking the messages ----------

  predicate Reaches(marks: map<string, int>, m: Message, u: string) {
    u in marks && u != m.sender && marks[u] >= m.created
  }

  /** The list names everybody whose mark reaches the message, once each. */
  ghost predicate Names(seen: seq<string>, marks: map<string, int>, m: Message) {
    NoRepeats(seen) && forall u :: u in seen <==> Reaches(marks, m, u)
  }

  /** What becomes of a message: a list of those who have seen it, unless nobody has. */
  ghost predicate ListsViewers(m': Message, m: Message, marks: map<string, int>) {
    && m' == m.(seenBy := m'.seenBy)
    && (if exists u :: Reaches(marks, m, u) then Names(m'.seenBy, marks, m) else m' == m)
  }

  /** Who has seen the message, in whatever order the map yields them. */
  method Viewers(m: Message, marks: map<string, int>) returns (seen: seq<string>)
    ensures Names(seen, marks, m)
  {
    seen := [];
    var todo := marks.Keys;
    while todo != {}
      invariant todo <= marks.Keys && NoRepeats(seen)
      invariant forall u :: u in seen <==> Reaches(marks, m, u) && u !in todo
      decreases todo
    {
      var u :| u in todo;
      todo := todo - {u};
      if u == m.sender {
        continue;
      }
      if !(marks[u] < m.created) {
        seen := seen + [u];
      }
    }
  }

  method ApplySeenBy(messages: array<Message>, marks: map<string, int>)
    modifies messages
    ensures forall i :: 0 <= i < messages.Length ==> ListsViewers(messages[i], old(messages[i]), marks)
  {
    for i := 0 to messages.Length
      invariant forall j :: 0 <= j < i ==> ListsViewers(messages[j], old(messages[j]), marks)
      invariant forall j :: i <= j < messages.Length ==> messages[j] == old(messages[j])
    {
      var seen := Viewers(messages[i], marks);
      if |seen| > 0 {
        assert Reaches(marks, messages[i], seen[0]);
        messages[i] := messages[i].(seenBy := seen);
      } else {
        assert forall u :: Reaches(marks, messages[i], u) ==> u in seen;
      }
    }
  }

  /** Joining a chat: its messages are sent with the marks of the moment. A user is listed exactly
      when they are not the sender and some read of the history reaches the message. */
  method SendHistory(store: ReadStore, chat: string, messages: array<Message>)
    requires store.Valid()
    requires forall i :: 0 <= i < messages.Length ==> messages[i].chat == chat && messages[i].seenBy == []
    modifies messages
    ensures store.rows == old(store.rows) && store.log == old(store.log)
    ensures forall i :: 0 <= i < messages.Length ==> messages[i] == old(messages[i]).(seenBy := messages[i].seenBy)
    ensures forall i, u :: 0 <= i < messages.Length ==> (u in messages[i].seenBy <==> Sees(store.log, messages[i], u))
  {
    var marks := store.GetChatReadWatermarks(chat);
    ApplySeenBy(messages, marks);
    forall i, u | 0 <= i < messages.Length ensures u in messages[i].seenBy <==> Sees(store.log, messages[i], u) {
      assert ListsViewers(messages[i], old(messages[i]), marks);
      assert Reaches(marks, old(messages[i]), u) <==> Sees(store.log, messages[i], u);
    }
  }
}
