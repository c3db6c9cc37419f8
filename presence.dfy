/** The socket side of app.js: the `onlineUsers` registry (username -> socket id), kept up to
    date by the `registerUser` and `disconnect` events, and the `chatMessage` handler that saves
    a message and then emits it to the sender's socket and to the receiver's, if registered. */
module Presence {
  import opened Common
  import opened Store

  /** A Socket.IO connection id. Real ids are non-empty strings, so every id is truthy. */
  datatype SocketId = SocketId(n: nat)

  /** The fields of a `chatMessage` event as a client sends them; any may be undefined. */
  datatype Payload = Payload(sender: Option<string>, receiver: Option<string>, text: Option<string>)

  /** One `emit("chatMessage", msg)` and the socket it goes to. */
  datatype Emission = Emission(to: SocketId, message: Message)

  /** The value of the `onlineUsers` object: what each own key maps to, and the keys in the
      order `for...in` enumerates them (the order they were first added). */
  datatype Table = Table(online: map<string, SocketId>, order: seq<string>)

  /** The enumeration order lists every key exactly once. */
  ghost predicate WellFormed(t: Table)
  {
    NoDup(t.order) && forall k :: k in t.online <==> k in t.order
  }

  /** The empty object `{}` the server starts with. */
  const Empty := Table(map[], [])

  /** `onlineUsers[name]`, where `undefined` is `None`. */
  function Lookup(t: Table, name: string): Option<SocketId>
  {
    if name in t.online then Some(t.online[name]) else None
  }

  /** The `registerUser` event: for a truthy `username`, `onlineUsers[username] = socket.id`,
      which keeps an existing key's place in the enumeration order and appends a new key; a
      missing or empty username changes nothing. */
  function Registered(t: Table, username: Option<string>, c: SocketId): Table
  {
    if !Truthy(username) then t
    else if username.value in t.online then Table(t.online[username.value := c], t.order)
    else Table(t.online[username.value := c], t.order + [username.value])
  }

  /** The key at position `i` of the enumeration order maps to socket `c`. */
  predicate Holds(t: Table, i: nat, c: SocketId)
    requires i < |t.order|
  {
    t.order[i] in t.online && t.online[t.order[i]] == c
  }

  /** The first position at or after `i` whose key maps to `c`, as the `for...in` scan finds it. */
  function FirstHolderFrom(t: Table, c: SocketId, i: nat): (r: Option<nat>)
    requires i <= |t.order|
    decreases |t.order| - i
    ensures r.Some? ==> i <= r.value < |t.order| && Holds(t, r.value, c)
    ensures r.Some? ==> forall j :: i <= j < r.value ==> !Holds(t, j, c)
    ensures r.None? ==> forall j :: i <= j < |t.order| ==> !Holds(t, j, c)
  {
    if i == |t.order| then None
    else if Holds(t, i, c) then Some(i)
    else FirstHolderFrom(t, c, i + 1)
  }

  /** The position of the first key (in enumeration order) that maps to `c`. */
  function FirstHolder(t: Table, c: SocketId): Option<nat>
  {
    FirstHolderFrom(t, c, 0)
  }

  /** A scan that stops at position `k` is the first holder. */
  lemma FirstHolderIs(t: Table, c: SocketId, k: nat)
    requires k < |t.order| && Holds(t, k, c)
    requires forall j :: 0 <= j < k ==> !Holds(t, j, c)
    ensures FirstHolder(t, c) == Some(k)
  {
  }

  /** The `disconnect` event of socket `c`: the first key mapping to `c` is deleted and the scan
      stops (`break`), so later keys mapping to `c` stay; with no such key nothing changes. */
  function Disconnected(t: Table, c: SocketId): Table
  {
    match FirstHolder(t, c)
    case None => t
    case Some(k) => Table(t.online - {t.order[k]}, t.order[..k] + t.order[k + 1..])
  }

  /** The emissions after a successful save of `m`: first the echo to the sending socket, then,
      when the receiver has an entry, the same message to the receiver's socket. */
  function Fanout(t: Table, from: SocketId, m: Message): (out: seq<Emission>)
    ensures |out| == if Lookup(t, m.receiver).Some? then 2 else 1
    ensures out[0] == Emission(from, m)
    ensures |out| == 2 ==> out[1] == Emission(Lookup(t, m.receiver).value, m)
    ensures forall e :: e in out ==> e.message == m
  {
    [Emission(from, m)] + match Lookup(t, m.receiver) {
      case None => []
      case Some(r) => [Emission(r, m)]
    }
  }

  // ---------------------------------------------------------------------------------------
  // Properties of the registry

  /** The empty registry is well formed. */
  lemma EmptyWellFormed()
    ensures WellFormed(Empty)
  {
  }

  /** Registration keeps every key listed exactly once. */
  lemma RegisteredWellFormed(t: Table, username: Option<string>, c: SocketId)
    requires WellFormed(t)
    ensures WellFormed(Registered(t, username, c))
  {
  }

  /** A truthy registration maps the name to this socket, whatever it mapped to before, and
      leaves every other name as it was; a missing or empty name leaves the table unchanged. */
  lemma RegisterOverwrites(t: Table, username: Option<string>, c: SocketId, other: string)
    ensures Truthy(username) ==> Lookup(Registered(t, username, c), username.value) == Some(c)
    ensures Truthy(username) && other != username.value ==>
      Lookup(Registered(t, username, c), other) == Lookup(t, other)
    ensures !Truthy(username) ==> Registered(t, username, c) == t
  {
  }

  /** Last registration wins: after u -> c1 and then u -> c2, u maps to c2. */
  lemma LastRegistrationWins(t: Table, u: string, c1: SocketId, c2: SocketId)
    requires u != ""
    ensures Lookup(Registered(Registered(t, Some(u), c1), Some(u), c2), u) == Some(c2)
  {
  }

  /** Disconnect keeps every key listed exactly once. */
  lemma {:induction false} DisconnectedWellFormed(t: Table, c: SocketId)
    requires WellFormed(t)
    ensures WellFormed(Disconnected(t, c))
  {
    match FirstHolder(t, c)
    case None =>
    case Some(k) =>
      var x := t.order[k];
      var rest := t.order[..k] + t.order[k + 1..];
      forall i | 0 <= i < |rest| ensures rest[i] != x && rest[i] in t.order {
        if i < k {
          assert rest[i] == t.order[i];
        } else {
          assert rest[i] == t.order[i + 1];
        }
      }
      forall i, j | 0 <= i < j < |rest| ensures rest[i] != rest[j] {
        var i' := if i < k then i else i + 1;
        var j' := if j < k then j else j + 1;
        assert rest[i] == t.order[i'] && rest[j] == t.order[j'];
      }
      forall y | y in t.order && y != x ensures y in rest {
        var i :| 0 <= i < |t.order| && t.order[i] == y;
        if i < k {
          assert rest[i] == y;
        } else {
          assert i != k;
          assert rest[i - 1] == y;
        }
      }
  }

  /** Disconnecting `c` removes at most one entry, and only the first key, in enumeration order,
      that maps to `c`; every remaining entry keeps its socket. */
  lemma DisconnectRemovesAtMostOne(t: Table, c: SocketId)
    requires WellFormed(t)
    ensures var t' := Disconnected(t, c);
      t'.online.Keys <= t.online.Keys &&
      |t.online.Keys - t'.online.Keys| <= 1 &&
      (forall k :: k in t'.online ==> t'.online[k] == t.online[k]) &&
      (forall k :: k in t.online && k !in t'.online ==>
        t.online[k] == c &&
        exists i :: 0 <= i < |t.order| && t.order[i] == k && forall j :: 0 <= j < i ==> !Holds(t, j, c))
  {
    match FirstHolder(t, c)
    case None =>
    case Some(k) =>
      var x := t.order[k];
      assert t.online.Keys - (t.online - {x}).Keys == {x};
  }

  /** Disconnecting a socket that no entry maps to is a no-op. */
  lemma DisconnectUnknownIsNoop(t: Table, c: SocketId)
    requires WellFormed(t)
    requires forall k :: k in t.online ==> t.online[k] != c
    ensures Disconnected(t, c) == t
  {
    assert FirstHolder(t, c).None?;
  }

  /** A stale socket: once u -> c1 has been replaced by u -> c2, the disconnect of c1 does not
      touch u, which stays mapped to c2. */
  lemma StaleDisconnectKeepsNewSocket(t: Table, u: string, c1: SocketId, c2: SocketId)
    requires WellFormed(t) && u != "" && c1 != c2
    ensures var t2 := Registered(Registered(t, Some(u), c1), Some(u), c2);
      Lookup(Disconnected(t2, c1), u) == Some(c2)
  {
    var t2 := Registered(Registered(t, Some(u), c1), Some(u), c2);
    RegisteredWellFormed(t, Some(u), c1);
    RegisteredWellFormed(Registered(t, Some(u), c1), Some(u), c2);
    DisconnectRemovesAtMostOne(t2, c1);
  }

  /** Register then disconnect of the same socket clears the name, provided no other name maps
      to that socket (the scan stops at the first holder). */
  lemma RegisterThenDisconnect(t: Table, u: string, c: SocketId)
    requires WellFormed(t) && u != ""
    requires forall k :: k in t.online && k != u ==> t.online[k] != c
    ensures Lookup(Disconnected(Registered(t, Some(u), c), c), u) == None
  {
    var t1 := Registered(t, Some(u), c);
    RegisteredWellFormed(t, Some(u), c);
    var i :| 0 <= i < |t1.order| && t1.order[i] == u;
    assert Holds(t1, i, c);
    forall j | 0 <= j < i ensures !Holds(t1, j, c) {
      assert t1.order[j] != u;
    }
    FirstHolderIs(t1, c, i);
  }

  /** The exact condition: after registering u on c, disconnecting c clears u iff no key
      enumerated before u maps to c; a later key holding c does not matter. */
  lemma RegisterThenDisconnectIff(t: Table, u: string, c: SocketId, p: nat)
    requires WellFormed(t) && u != ""
    requires p < |Registered(t, Some(u), c).order| && Registered(t, Some(u), c).order[p] == u
    ensures var t1 := Registered(t, Some(u), c);
      Lookup(Disconnected(t1, c), u) == None <==> forall j :: 0 <= j < p ==> !Holds(t1, j, c)
  {
    var t1 := Registered(t, Some(u), c);
    RegisteredWellFormed(t, Some(u), c);
    assert Holds(t1, p, c);
    if forall j :: 0 <= j < p ==> !Holds(t1, j, c) {
      FirstHolderIs(t1, c, p);
    } else {
      var k := FirstHolder(t1, c).value;
      assert k < p;
      assert t1.order[k] != u;
    }
  }

  /** Without that proviso the name can survive: if v already maps to c and is enumerated
      first, re-registering c as u and then disconnecting c removes v and leaves u live. */
  lemma RegisterThenDisconnectCanMiss()
    ensures var t := Registered(Empty, Some("v"), SocketId(1));
      Lookup(Disconnected(Registered(t, Some("u"), SocketId(1)), SocketId(1)), "u") == Some(SocketId(1))
  {
    var t := Registered(Registered(Empty, Some("v"), SocketId(1)), Some("u"), SocketId(1));
    assert t.order == ["v", "u"];
    assert Holds(t, 0, SocketId(1));
    FirstHolderIs(t, SocketId(1), 0);
  }

  /** A repeated disconnect is a no-op when at most one name maps to the socket. */
  lemma DisconnectIdempotent(t: Table, c: SocketId)
    requires WellFormed(t)
    requires forall a, b :: a in t.online && b in t.online && t.online[a] == c && t.online[b] == c ==> a == b
    ensures Disconnected(Disconnected(t, c), c) == Disconnected(t, c)
  {
    var t' := Disconnected(t, c);
    DisconnectRemovesAtMostOne(t, c);
    DisconnectedWellFormed(t, c);
    if FirstHolder(t, c).Some? {
      var k := FirstHolder(t, c).value;
      forall y | y in t'.online ensures t'.online[y] != c {
        assert y != t.order[k];
      }
    } else {
      forall y | y in t.online ensures t.online[y] != c {
        var i :| 0 <= i < |t.order| && t.order[i] == y;
        assert !Holds(t, i, c);
      }
    }
    DisconnectUnknownIsNoop(t', c);
  }

  /** The live registry object. */
  class Registry {
    var online: map<string, SocketId>
    var order: seq<string>

    /** The registry's current value. */
    function State(): Table
      reads this
    {
      Table(online, order)
    }

    ghost predicate Valid()
      reads this
    {
      WellFormed(State())
    }

    /** `const onlineUsers = {}`. */
    constructor ()
      ensures Valid() && State() == Empty
    {
      online := map[];
      order := [];
    }

    /** `onlineUsers[data.username]`, read by the `chatMessage` handler. */
    function LookupUser(name: string): (r: Option<SocketId>)
      reads this
      ensures r.Some? <==> name in online
      ensures r.Some? ==> r.value == online[name]
    {
      Lookup(State(), name)
    }

    /** The `registerUser` handler of socket `socket`. */
    method Register(username: Option<string>, socket: SocketId)
      requires Valid()
      modifies this
      ensures Valid()
      ensures State() == Registered(old(State()), username, socket)
    {
      RegisteredWellFormed(State(), username, socket);
      if Truthy(username) {
        if username.value !in online {
          order := order + [username.value];
        }
        online := online[username.value := socket];
      }
    }

    /** The `disconnect` handler of socket `socket`: scan the keys in order, delete the first
        one that maps to this socket, and stop. */
    method Disconnect(socket: SocketId)
      requires Valid()
      modifies this
      ensures Valid()
      ensures State() == Disconnected(old(State()), socket)
    {
      ghost var t := State();
      DisconnectedWellFormed(t, socket);
      var i := 0;
      while i < |order|
        invariant i <= |order|
        invariant State() == t
        invariant forall j :: 0 <= j < i ==> !Holds(t, j, socket)
      {
        var user := order[i];
        if user in online && online[user] == socket {
          FirstHolderIs(t, socket, i);
          online := online - {user};
          order := order[..i] + order[i + 1..];
          return;
        }
        i := i + 1;
      }
    }

    /** The `chatMessage` handler of socket `from`: build the document from the payload with
        the current time, await its save, and only then emit. If the save is rejected the
        handler's promise rejects before any emit (what the runtime then does is not part of
        this model); the payload is not checked beyond the schema. */
    method ChatMessage(db: Database, from: SocketId, data: Payload, now: int, up: bool)
      returns (out: seq<Emission>)
      modifies db`messages
      ensures var saved := Saved(Draft(data.sender, data.receiver, data.text, now), up);
        && (saved.None? ==> db.messages == old(db.messages) && out == [])
        && (saved.Some? ==> db.messages == old(db.messages) + [saved.value] && out == Fanout(State(), from, saved.value))
      // Persist before emit: nothing is emitted without a store, and what is emitted is exactly
      // the one message this call appended to the store.
      ensures out == [] <==> db.messages == old(db.messages)
      ensures out != [] ==> db.messages == old(db.messages) + [out[0].message]
      ensures forall e :: e in out ==> e.message == db.messages[|db.messages| - 1]
    {
      var saved := db.Save(Draft(data.sender, data.receiver, data.text, now), up);
      if saved.None? {
        return [];
      }
      var msg := saved.value;
      out := [Emission(from, msg)];
      var receiverSocket := LookupUser(data.receiver.value);
      if receiverSocket.Some? {
        out := out + [Emission(receiverSocket.value, msg)];
      }
    }
  }

  // ---------------------------------------------------------------------------------------
  // Properties of delivery

  /** What a successful save emits, as a corollary of `Saved` and `Fanout`: every emission
      carries the saved message, whose sender, receiver and text are the payload's; one
      emission goes out when the receiver has no entry and two when it has one. */
  lemma DeliveryOrder(t: Table, from: SocketId, data: Payload, now: int, up: bool)
    ensures var saved := Saved(Draft(data.sender, data.receiver, data.text, now), up);
      saved.Some? ==>
        var out := Fanout(t, from, saved.value);
        && (forall e :: e in out ==> e.message == saved.value)
        && saved.value.sender == data.sender.value && saved.value.receiver == data.receiver.value
        && saved.value.text == data.text.value
        && (|out| == 1 <==> data.receiver.value !in t.online)
  {
  }

  /** A receiver whose socket was replaced never gets the message on the old socket: after
      bob -> c1, bob -> c2, a message to bob goes to the sender's socket and to c2 only. */
  lemma ReplacedSocketNotAddressed(t: Table, from: SocketId, bob: string, c1: SocketId, c2: SocketId, m: Message)
    requires bob != "" && m.receiver == bob
    ensures Fanout(Registered(Registered(t, Some(bob), c1), Some(bob), c2), from, m)
         == [Emission(from, m), Emission(c2, m)]
  {
  }

  /** A caller's view of the registry, as a sequential trace of events: two users register and
      bob reconnects on a new socket; the disconnect of bob's stale socket then changes nothing. */
  method ReconnectTrace() returns (reg: Registry)
    ensures fresh(reg) && reg.Valid() && reg.order == ["alice", "bob"]
    ensures reg.online["alice"] == SocketId(1) && reg.online["bob"] == SocketId(3)
  {
    var alice, bob1, bob2 := SocketId(1), SocketId(2), SocketId(3);
    reg := new Registry();
    reg.Register(Some("alice"), alice);
    assert reg.order == ["alice"];
    reg.Register(Some("bob"), bob1);
    assert reg.order == ["alice", "bob"] && reg.online["alice"] == alice;
    reg.Register(Some("bob"), bob2);
    var t := reg.State();
    assert !Holds(t, 0, bob1) && !Holds(t, 1, bob1);
    assert FirstHolderFrom(t, bob1, 2) == None;
    assert FirstHolderFrom(t, bob1, 1) == None;
    reg.Disconnect(bob1);
  }

  /** Continuing the trace: alice's socket disconnects and her entry, the first key, goes. */
  method LeaveTrace() returns (reg: Registry)
    ensures reg.Valid() && reg.LookupUser("alice") == None && reg.LookupUser("bob") == Some(SocketId(3))
  {
    reg := ReconnectTrace();
    var t := reg.State();
    assert Holds(t, 0, SocketId(1));
    FirstHolderIs(t, SocketId(1), 0);
    assert t.order[..0] + t.order[1..] == ["bob"];
    reg.Disconnect(SocketId(1));
    assert reg.online == t.online - {"alice"};
  }

  /** The handler seen from a caller: with bob on socket 3 and alice offline, a message from
      alice reaches bob's socket as well as her own, bob's answer only his own, and an event
      with an empty receiver fails the schema check, so nothing is stored or emitted. */
  method DeliveryTrace(db: Database)
    modifies db`messages
  {
    var alice, bob := SocketId(1), SocketId(3);
    var reg := new Registry();
    reg.Register(Some("bob"), bob);
    assert reg.LookupUser("bob") == Some(bob) && reg.LookupUser("alice") == None;

    var m1 := Message("alice", "bob", "hi", 10);
    var out := reg.ChatMessage(db, alice, Payload(Some("alice"), Some("bob"), Some("hi")), 10, true);
    assert out == [Emission(alice, m1), Emission(bob, m1)];

    var m2 := Message("bob", "alice", "yo", 11);
    out := reg.ChatMessage(db, bob, Payload(Some("bob"), Some("alice"), Some("yo")), 11, true);
    assert out == [Emission(bob, m2)];

    var stored := db.messages;
    out := reg.ChatMessage(db, bob, Payload(Some("bob"), Some(""), Some("lost")), 12, true);
    assert out == [] && db.messages == stored;
  }
}
