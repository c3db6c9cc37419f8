/** The two Mongo collections the server uses, abstracted as sequences: the messages
    (models/Message.js) and the users (`username`, `email`, keyed by `_id`). */
module Store {
  import opened Common

  /** A saved chat message. `createdAt` stands for the Date the schema's default assigns. */
  datatype Message = Message(sender: string, receiver: string, text: string, createdAt: int)

  /** A document built by `new Message({...})` and not yet saved: the fields exactly as the
      caller supplied them (possibly undefined), with the default `createdAt` already filled in. */
  datatype Draft = Draft(sender: Option<string>, receiver: Option<string>, text: Option<string>, createdAt: int)

  /** A Mongo document id. */
  type UserId = nat

  /** A user record, as far as the chat routes read it. */
  datatype User = User(id: UserId, username: string, email: string)

  /** The outcome of `draft.save()`. The schema's validator runs first: `sender`, `receiver` and
      `text` are all `required: true`, so each must be a present, non-empty string. `up` is whether
      the database then acknowledges the write; a rejection of either kind saves nothing. */
  function Saved(d: Draft, up: bool): (r: Option<Message>)
    ensures r.Some? <==> up && Truthy(d.sender) && Truthy(d.receiver) && Truthy(d.text)
    ensures r.Some? ==>
      r.value.sender == d.sender.value && r.value.receiver == d.receiver.value &&
      r.value.text == d.text.value && r.value.createdAt == d.createdAt
  {
    if up && Truthy(d.sender) && Truthy(d.receiver) && Truthy(d.text)
    then Some(Message(d.sender.value, d.receiver.value, d.text.value, d.createdAt))
    else None
  }

  /** The schema checks presence only: a text made of blanks is saved as it is. */
  lemma BlankTextIsSaved(sender: string, receiver: string, now: int)
    requires sender != "" && receiver != ""
    ensures Saved(Draft(Some(sender), Some(receiver), Some("   "), now), true)
         == Some(Message(sender, receiver, "   ", now))
  {
  }

  /** Non-decreasing `createdAt`: the order of `.sort({ createdAt: 1 })`. */
  ghost predicate Ascending(s: seq<Message>)
  {
    forall i, j :: 0 <= i < j < |s| ==> s[i].createdAt <= s[j].createdAt
  }

  /** Puts `m` into an ascending sequence after every message that is not later than it. */
  function InsertByTime(m: Message, s: seq<Message>): (r: seq<Message>)
    requires Ascending(s)
    ensures Ascending(r)
    ensures multiset(r) == multiset(s) + multiset{m}
    ensures |r| == |s| + 1 && (r[0] == m || (s != [] && r[0] == s[0]))
  {
    if s == [] || m.createdAt < s[0].createdAt then [m] + s
    else
      var rest := InsertByTime(m, s[1..]);
      assert s == [s[0]] + s[1..];
      assert s[0].createdAt <= rest[0].createdAt;
      [s[0]] + rest
  }

  /** `.sort({ createdAt: 1 })` on a query result: ascending by `createdAt` and a permutation of
      the input; `SortByTimeStable` shows that messages with equal times keep their stored order. */
  function SortByTime(s: seq<Message>): (r: seq<Message>)
    ensures Ascending(r)
    ensures multiset(r) == multiset(s)
  {
    if s == [] then []
    else
      assert s == s[..|s| - 1] + [s[|s| - 1]];
      InsertByTime(s[|s| - 1], SortByTime(s[..|s| - 1]))
  }

  /** Whether a message was created at time `t`. */
  function At(t: int): Message -> bool
  {
    (m: Message) => m.createdAt == t
  }

  /** The messages created at time `t`, in their order in `s`. */
  function AtTime(s: seq<Message>, t: int): seq<Message>
  {
    Filter(s, At(t))
  }

  /** `AtTime` on a sequence with a given first message. */
  lemma AtTimeCons(x: Message, s: seq<Message>, t: int)
    ensures AtTime([x] + s, t) == (if x.createdAt == t then [x] else []) + AtTime(s, t)
  {
    assert ([x] + s)[0] == x && ([x] + s)[1..] == s;
  }

  /** An ascending sequence that starts after `t` has no message at `t`. */
  lemma NoneAtTime(s: seq<Message>, t: int)
    requires Ascending(s) && (s == [] || t < s[0].createdAt)
    ensures AtTime(s, t) == []
  {
    forall x | x in s ensures x.createdAt != t {
      var i :| 0 <= i < |s| && s[i] == x;
      assert i == 0 || s[0].createdAt <= s[i].createdAt;
    }
  }

  /** Concatenation regroups. */
  lemma Regroup(a: seq<Message>, b: seq<Message>, c: seq<Message>)
    ensures a + (b + c) == (a + b) + c
  {
  }

  /** Inserting puts `m` after every message of its own time. */
  lemma {:induction false} InsertAtTime(m: Message, s: seq<Message>, t: int)
    requires Ascending(s)
    ensures AtTime(InsertByTime(m, s), t) == AtTime(s, t) + (if m.createdAt == t then [m] else [])
  {
    var tail: seq<Message> := if m.createdAt == t then [m] else [];
    if s == [] || m.createdAt < s[0].createdAt {
      assert InsertByTime(m, s) == [m] + s;
      AtTimeCons(m, s, t);
      if m.createdAt == t {
        NoneAtTime(s, t);
        assert AtTime([m] + s, t) == [m] == AtTime(s, t) + tail;
      }
    } else {
      var rest := InsertByTime(m, s[1..]);
      var head: seq<Message> := if s[0].createdAt == t then [s[0]] else [];
      assert InsertByTime(m, s) == [s[0]] + rest;
      assert s == [s[0]] + s[1..];
      AtTimeCons(s[0], rest, t);
      AtTimeCons(s[0], s[1..], t);
      InsertAtTime(m, s[1..], t);
      var later := AtTime(s[1..], t);
      assert AtTime([s[0]] + rest, t) == head + (later + tail);
      assert AtTime(s, t) == head + later;
      Regroup(head, later, tail);
    }
  }

  /** The sort is stable: for every time, the messages created at that time come out in the
      order they were stored. */
  lemma {:induction false} SortByTimeStable(s: seq<Message>, t: int)
    ensures AtTime(SortByTime(s), t) == AtTime(s, t)
  {
    if s != [] {
      var init, last := s[..|s| - 1], s[|s| - 1];
      var sorted := SortByTime(init);
      assert s == init + [last];
      assert SortByTime(s) == InsertByTime(last, sorted);
      SortByTimeStable(init, t);
      InsertAtTime(last, sorted, t);
      FilterConcat(init, [last], At(t));
      AtTimeCons(last, [], t);
      assert [last] + [] == [last];
    }
  }

  /** Sorting keeps exactly the same messages. */
  lemma SortSameMembers(s: seq<Message>, m: Message)
    ensures m in SortByTime(s) <==> m in s
  {
    assert m in SortByTime(s) <==> m in multiset(SortByTime(s));
  }

  /** The first user record with this id (`User.findById`). */
  function FindById(users: seq<User>, id: UserId): (r: Option<User>)
    ensures r.Some? ==> r.value in users && r.value.id == id
    ensures r.None? <==> forall u :: u in users ==> u.id != id
  {
    if users == [] then None
    else if users[0].id == id then Some(users[0])
    else FindById(users[1..], id)
  }

  /** Whether a user with this username exists (`User.findOne({ username })` is non-null). */
  predicate KnownUser(users: seq<User>, name: string)
  {
    exists u :: u in users && u.username == name
  }

  /** The durable store: both collections, each changed in place by the handlers. */
  class Database {
    var messages: seq<Message>
    var users: seq<User>

    constructor (messages: seq<Message>, users: seq<User>)
      ensures this.messages == messages && this.users == users
    {
      this.messages := messages;
      this.users := users;
    }

    /** `await draft.save()`: on success the one new document is appended; on a rejection,
        whether by the schema or by the database, nothing is stored. */
    method Save(d: Draft, up: bool) returns (saved: Option<Message>)
      modifies this`messages
      ensures saved == Saved(d, up)
      ensures messages == if saved.Some? then old(messages) + [saved.value] else old(messages)
    {
      saved := Saved(d, up);
      if saved.Some? {
        messages := messages + [saved.value];
      }
    }
  }
}
