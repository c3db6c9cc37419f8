/** routes/chat.js: the chat page (partner list and open conversation), the username search,
    the form-post send and the start-chat route, each behind the `isAuthenticated` guard. */
module ChatRoutes {
  import opened Common
  import opened Store
  import opened Http

  // ---------------------------------------------------------------------------------------
  // The queries behind the chat page

  /** `Message.find({ $or: [{ sender: u }, { receiver: u }] })` before sorting. */
  function Involving(msgs: seq<Message>, u: string): seq<Message>
  {
    Filter(msgs, (m: Message) => m.sender == u || m.receiver == u)
  }

  /** The other end of a message, seen from `u`: its receiver when `u` sent it, else its sender. */
  function Counterpart(m: Message, u: string): string
  {
    if m.sender == u then m.receiver else m.sender
  }

  /** `msgs.map(msg => counterpart)`. */
  function Counterparts(msgs: seq<Message>, u: string): (r: seq<string>)
    ensures |r| == |msgs|
  {
    seq(|msgs|, i requires 0 <= i < |msgs| => Counterpart(msgs[i], u))
  }

  /** `[...new Set(s)]`: each element once, at the place of its first occurrence. */
  function Distinct(s: seq<string>): (r: seq<string>)
    ensures NoDup(r)
    ensures forall x :: x in r <==> x in s
  {
    if s == [] then []
    else
      var init := Distinct(s[..|s| - 1]);
      var last := s[|s| - 1];
      assert s == s[..|s| - 1] + [last];
      if last in init then init else init + [last]
  }

  /** First-occurrence order: deduplicating a prefix of `s` gives a prefix of deduplicating `s`,
      so an element that occurs first earlier in `s` comes earlier in the result. */
  lemma {:induction false} DistinctPrefix(s: seq<string>, k: nat)
    requires k <= |s|
    decreases |s| - k
    ensures var p := Distinct(s[..k]); |p| <= |Distinct(s)| && p == Distinct(s)[..|p|]
  {
    if k < |s| {
      DistinctPrefix(s, k + 1);
      assert s[..k + 1][..k] == s[..k];
    } else {
      assert s[..k] == s;
    }
  }

  /** The partner names before the user lookup (routes/chat.js `rawPartners`): the counterparts
      of every message involving `u`, in `createdAt` order, each once, without `u` itself. */
  function RawPartners(msgs: seq<Message>, u: string): seq<string>
  {
    Filter(Distinct(Counterparts(SortByTime(Involving(msgs, u)), u)), (x: string) => x != u)
  }

  /** `User.find({ username: { $in: raw } })` mapped to usernames: in the users' own order. */
  function ChatPartners(raw: seq<string>, users: seq<User>): (r: seq<string>)
    ensures |r| <= |users|
  {
    var known := Filter(users, (v: User) => v.username in raw);
    seq(|known|, i requires 0 <= i < |known| => known[i].username)
  }

  /** `Message.find({ $or: [{ sender: u, receiver: w }, { sender: w, receiver: u }] })`. */
  predicate Between(m: Message, u: string, w: string)
  {
    (m.sender == u && m.receiver == w) || (m.sender == w && m.receiver == u)
  }

  /** The open conversation: nothing without a truthy `with`, else the messages between the two
      users sorted by `createdAt`. */
  function Conversation(msgs: seq<Message>, u: string, with: Option<string>): seq<Message>
  {
    if Truthy(with) then SortByTime(Filter(msgs, (m: Message) => Between(m, u, with.value))) else []
  }

  /** A name is a counterpart in `msgs` exactly when some message of `msgs` has it. */
  lemma CounterpartsMembers(msgs: seq<Message>, u: string, x: string)
    ensures x in Counterparts(msgs, u) <==> exists m :: m in msgs && Counterpart(m, u) == x
  {
    var cps := Counterparts(msgs, u);
    if x in cps {
      var i :| 0 <= i < |cps| && cps[i] == x;
      assert msgs[i] in msgs;
    }
    if exists m :: m in msgs && Counterpart(m, u) == x {
      var m :| m in msgs && Counterpart(m, u) == x;
      var i :| 0 <= i < |msgs| && msgs[i] == m;
      assert cps[i] == x;
    }
  }

  /** The messages involving `u`, once sorted, are still exactly the messages involving `u`. */
  lemma SortedInvolvingMembers(msgs: seq<Message>, u: string, m: Message)
    ensures m in SortByTime(Involving(msgs, u)) <==> m in msgs && (m.sender == u || m.receiver == u)
  {
    SortSameMembers(Involving(msgs, u), m);
  }

  /** The raw partner list has no duplicates, never holds the user, and holds exactly the
      counterparts (other than the user) of messages the user sent or received. */
  lemma RawPartnersSpec(msgs: seq<Message>, u: string)
    ensures NoDup(RawPartners(msgs, u))
    ensures u !in RawPartners(msgs, u)
    ensures forall x :: x in RawPartners(msgs, u) <==>
      x != u && exists m :: m in msgs && (m.sender == u || m.receiver == u) && Counterpart(m, u) == x
  {
    var sorted := SortByTime(Involving(msgs, u));
    var d := Distinct(Counterparts(sorted, u));
    FilterNoDup(d, (x: string) => x != u);
    forall x
      ensures x in RawPartners(msgs, u) <==>
        x != u && exists m :: m in msgs && (m.sender == u || m.receiver == u) && Counterpart(m, u) == x
    {
      CounterpartsMembers(sorted, u, x);
      forall m ensures m in sorted <==> m in msgs && (m.sender == u || m.receiver == u) {
        SortedInvolvingMembers(msgs, u, m);
      }
    }
  }

  /** Every listed partner is a raw partner that exists as a user, and every raw partner that
      exists as a user is listed. */
  lemma ChatPartnersSpec(raw: seq<string>, users: seq<User>)
    ensures forall x :: x in ChatPartners(raw, users) <==> x in raw && KnownUser(users, x)
  {
    var known := Filter(users, (v: User) => v.username in raw);
    forall x ensures x in ChatPartners(raw, users) <==> x in raw && KnownUser(users, x) {
      if x in raw && KnownUser(users, x) {
        var v :| v in users && v.username == x;
        assert v in known;
        var i :| 0 <= i < |known| && known[i] == v;
        assert ChatPartners(raw, users)[i] == x;
      }
    }
  }

  /** The open conversation is sorted by `createdAt`, is empty without a truthy `with`, and
      otherwise holds every message between the two users, as often as stored, and no other. */
  lemma ConversationSpec(msgs: seq<Message>, u: string, with: Option<string>)
    ensures Ascending(Conversation(msgs, u, with))
    ensures !Truthy(with) ==> Conversation(msgs, u, with) == []
    ensures Truthy(with) ==> forall m ::
      multiset(Conversation(msgs, u, with))[m] == if Between(m, u, with.value) then multiset(msgs)[m] else 0
  {
  }

  /** Both ends see the same conversation: the query is symmetric in the two users. */
  lemma {:induction false} ConversationSymmetric(msgs: seq<Message>, u: string, w: string)
    requires u != "" && w != ""
    ensures Conversation(msgs, u, Some(w)) == Conversation(msgs, w, Some(u))
  {
    BetweenFilterSymmetric(msgs, u, w);
  }

  lemma {:induction false} BetweenFilterSymmetric(msgs: seq<Message>, u: string, w: string)
    ensures Filter(msgs, (m: Message) => Between(m, u, w)) == Filter(msgs, (m: Message) => Between(m, w, u))
  {
    if msgs != [] {
      BetweenFilterSymmetric(msgs[1..], u, w);
    }
  }

  // ---------------------------------------------------------------------------------------
  // The handlers

  /** `GET /chat`: through the guard, remember the URL in the session as `lastChatUrl`, then
      render the partner list and the conversation with `with`. */
  method ChatPage(session: Session, db: Database, with: Option<string>, originalUrl: string)
    returns (r: Response)
    modifies session`lastChatUrl
    ensures session.user.None? ==>
      r == Redirect("/login", NoFlash) && session.lastChatUrl == old(session.lastChatUrl)
    ensures session.user.Some? ==>
      var me := session.user.value.username;
      && session.lastChatUrl == Some(originalUrl)
      && r == RenderChat(ChatView(session.user.value, Conversation(db.messages, me, with),
                                  ChatPartners(RawPartners(db.messages, me), db.users), with))
  {
    var blocked := Guard(session.user);
    if blocked.Some? {
      return blocked.value;
    }
    var username := session.user.value.username;
    session.lastChatUrl := Some(originalUrl);
    var rawPartners := RawPartners(db.messages, username);
    var chatPartners := ChatPartners(rawPartners, db.users);
    var messages := [];
    if Truthy(with) {
      messages := SortByTime(Filter(db.messages, (m: Message) => Between(m, username, with.value)));
    }
    r := RenderChat(ChatView(session.user.value, messages, chatPartners, with));
  }

  /** `GET /chat/search?username=`: the checks run in this order, each answering with a redirect
      to `/chat`: a search for oneself, then a missing or empty name, then an unknown name; only
      a known other user leads to the chat with that user. */
  function Search(user: Option<SessionUser>, username: Option<string>, users: seq<User>): (r: Response)
    ensures user.None? ==> r == Redirect("/login", NoFlash)
    ensures user.Some? && username == Some(user.value.username) ==> r == Redirect("/chat", CannotChatWithSelf)
    ensures user.Some? && username != Some(user.value.username) && !Truthy(username) ==>
      r == Redirect("/chat", EnterUsername)
    ensures user.Some? && username != Some(user.value.username) && Truthy(username) && !KnownUser(users, username.value) ==>
      r == Redirect("/chat", UserNotFound)
    ensures user.Some? && username != Some(user.value.username) && Truthy(username) && KnownUser(users, username.value) ==>
      r == Redirect(ChatWithUrl(username.value), ChattingWith(username.value))
  {
    if Guard(user).Some? then Guard(user).value
    else if username == Some(user.value.username) then Redirect("/chat", CannotChatWithSelf)
    else if !Truthy(username) then Redirect("/chat", EnterUsername)
    else if !KnownUser(users, username.value) then Redirect("/chat", UserNotFound)
    else Redirect(ChatWithUrl(username.value), ChattingWith(username.value))
  }

  /** A search opens a chat exactly for a known user other than oneself, and then opens the chat
      with the name searched for. */
  lemma SearchOpensOnlyKnownOthers(user: Option<SessionUser>, username: Option<string>, users: seq<User>)
    ensures var r := Search(user, username, users);
      r.flash.ChattingWith? <==>
        user.Some? && Truthy(username) && username.value != user.value.username && KnownUser(users, username.value)
    ensures var r := Search(user, username, users);
      r.flash.ChattingWith? ==> r.location != "/chat" && r.location[11..] == username.value
  {
  }

  /** The self check comes first: a session user whose name is empty who searches for the empty
      name is told not to chat with themself, not to enter a name. */
  lemma SearchSelfBeforeEmpty(id: UserId, email: string, users: seq<User>)
    ensures Search(Some(SessionUser(id, "", email)), Some(""), users) == Redirect("/chat", CannotChatWithSelf)
  {
  }

  /** `POST /chat/send`: through the guard; a missing or empty text or receiver saves nothing;
      otherwise the message is saved with the session user as sender and the browser is sent
      to the chat with the receiver; a rejected save is answered with a redirect to `/chat`.
      A text of blanks is not rejected here. */
  method Send(session: Session, db: Database, text: Option<string>, receiver: Option<string>, now: int, up: bool)
    returns (r: Response)
    modifies db`messages
    ensures session.user.None? ==> r == Redirect("/login", NoFlash) && db.messages == old(db.messages)
    ensures session.user.Some? && !(Truthy(text) && Truthy(receiver)) ==>
      r == Redirect("/chat", FieldsRequired) && db.messages == old(db.messages)
    ensures session.user.Some? && Truthy(text) && Truthy(receiver) ==>
      var saved := Saved(Draft(Some(session.user.value.username), receiver, text, now), up);
      && (saved.None? ==> r == Redirect("/chat", SendFailed) && db.messages == old(db.messages))
      && (saved.Some? ==>
            && saved.value == Message(session.user.value.username, receiver.value, text.value, now)
            && db.messages == old(db.messages) + [saved.value]
            && r == Redirect(ChatWithUrl(receiver.value), MessageSent))
  {
    var blocked := Guard(session.user);
    if blocked.Some? {
      return blocked.value;
    }
    if !Truthy(text) || !Truthy(receiver) {
      return Redirect("/chat", FieldsRequired);
    }
    var saved := db.Save(Draft(Some(session.user.value.username), receiver, text, now), up);
    if saved.None? {
      return Redirect("/chat", SendFailed);
    }
    r := Redirect(ChatWithUrl(receiver.value), MessageSent);
  }

  /** `POST /chat/chat/start`: through the guard; an unknown username is answered with a
      redirect to `/chat`, a known one with the chat with it. */
  function Start(user: Option<SessionUser>, username: string, users: seq<User>): (r: Response)
    ensures user.None? ==> r == Redirect("/login", NoFlash)
    ensures user.Some? && !KnownUser(users, username) ==> r == Redirect("/chat", UserNotFound)
    ensures user.Some? && KnownUser(users, username) ==> r == Redirect(ChatWithUrl(username), ChatStarted(username))
  {
    if Guard(user).Some? then Guard(user).value
    else if !KnownUser(users, username) then Redirect("/chat", UserNotFound)
    else Redirect(ChatWithUrl(username), ChatStarted(username))
  }

  /** Unlike the search, starting a chat does not refuse oneself: a user who exists can start a
      chat with their own name, which the search would refuse. */
  lemma StartDoesNotRefuseSelf(me: SessionUser, users: seq<User>)
    requires KnownUser(users, me.username)
    ensures Start(Some(me), me.username, users).flash == ChatStarted(me.username)
    ensures Search(Some(me), Some(me.username), users).flash == CannotChatWithSelf
  {
  }
}
