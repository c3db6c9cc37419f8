/** The browser side, public/js/chat.js: the registration sent on page load, the filter that
    decides which arriving `chatMessage` events are drawn into the `.messages` container and
    how they are tagged, and the form submit that sends the trimmed text over the socket. */
module Client {
  import opened Common
  import opened Store
  import opened Presence

  /** The characters `String.prototype.trim` removes: ECMAScript's WhiteSpace (tab, vertical
      tab, form feed, space, no-break space, byte order mark and the other Zs space separators)
      and LineTerminator (line feed, carriage return, line and paragraph separators). */
  predicate IsJsSpace(c: char)
  {
    || c == '\t' || c == '\n' || c == '\U{B}' || c == '\U{C}' || c == '\r' || c == ' '
    || c == '\U{A0}' || c == '\U{1680}' || ('\U{2000}' <= c <= '\U{200A}')
    || c == '\U{2028}' || c == '\U{2029}' || c == '\U{202F}' || c == '\U{205F}'
    || c == '\U{3000}' || c == '\U{FEFF}'
  }

  /** Drops the leading blanks: what is left is a suffix of `s` that does not start with one. */
  function TrimStart(s: string): (r: string)
    ensures |r| <= |s| && r == s[|s| - |r|..]
    ensures forall i :: 0 <= i < |s| - |r| ==> IsJsSpace(s[i])
    ensures r != [] ==> !IsJsSpace(r[0])
  {
    if s != [] && IsJsSpace(s[0]) then TrimStart(s[1..]) else s
  }

  /** Drops the trailing blanks: what is left is a prefix of `s` that does not end with one. */
  function TrimEnd(s: string): (r: string)
    ensures |r| <= |s| && r == s[..|r|]
    ensures forall i :: |r| <= i < |s| ==> IsJsSpace(s[i])
    ensures r != [] ==> !IsJsSpace(r[|r| - 1])
  {
    if s != [] && IsJsSpace(s[|s| - 1]) then TrimEnd(s[..|s| - 1]) else s
  }

  /** `String.prototype.trim`. */
  function Trim(s: string): (r: string)
  {
    TrimEnd(TrimStart(s))
  }

  /** Where the trimmed text sits in `s`: between a blank prefix `s[..a]` and a blank suffix
      `s[b..]`. */
  lemma TrimBounds(s: string) returns (a: nat, b: nat)
    ensures a <= b <= |s| && Trim(s) == s[a..b]
    ensures forall i :: 0 <= i < a ==> IsJsSpace(s[i])
    ensures forall i :: b <= i < |s| ==> IsJsSpace(s[i])
  {
    var t := TrimStart(s);
    var r := TrimEnd(t);
    a := |s| - |t|;
    b := a + |r|;
    assert t == s[a..] && r == t[..|r|];
    forall i | b <= i < |s| ensures IsJsSpace(s[i]) {
      assert s[i] == t[i - a];
    }
  }

  /** The trimmed text is the piece of `s` between a blank prefix and a blank suffix, and it
      neither starts nor ends with a blank. */
  lemma TrimIsSlice(s: string)
    ensures var r := Trim(s);
      exists a, b :: 0 <= a <= b <= |s| && r == s[a..b] &&
        (forall i :: 0 <= i < a ==> IsJsSpace(s[i])) &&
        (forall i :: b <= i < |s| ==> IsJsSpace(s[i]))
    ensures Trim(s) != [] ==> !IsJsSpace(Trim(s)[0]) && !IsJsSpace(Trim(s)[|Trim(s)| - 1])
  {
    var a, b := TrimBounds(s);
    var t := TrimStart(s);
    if Trim(s) != [] {
      assert Trim(s)[0] == t[0];
    }
  }

  /** The trimmed text is empty exactly when every character of `s` is a blank; this is the
      condition under which the submit handler sends nothing. */
  lemma TrimEmptyIff(s: string)
    ensures Trim(s) == [] <==> forall i :: 0 <= i < |s| ==> IsJsSpace(s[i])
  {
    var t := TrimStart(s);
    var a := |s| - |t|;
    if Trim(s) == [] {
      assert t == [];
    } else {
      assert !IsJsSpace(t[0]);
      assert s[a] == t[0];
    }
  }

  /** Trimming twice is trimming once. */
  lemma TrimIdempotent(s: string)
    ensures Trim(Trim(s)) == Trim(s)
  {
    var r := Trim(s);
    TrimIsSlice(s);
    if r != [] {
      assert TrimStart(r) == r;
      assert TrimEnd(r) == r;
    }
  }

  /** The `sent` / `received` class a bubble gets. */
  datatype Tag = Sent | Received

  /** A bubble in the `.messages` container: `<strong>sender</strong> text`, and its class. */
  datatype Bubble = Bubble(sender: string, text: string, tag: Tag)

  /** The arrival filter: a message is drawn unless its sender is neither the logged-in user nor
      the open partner and its receiver is not the logged-in user. `currentUser` is the body's
      `data-username` and `chatWith` the receiver input's value; either may be undefined, and
      `undefined` equals no message field. */
  predicate Shows(currentUser: Option<string>, chatWith: Option<string>, m: Message)
  {
    !(Some(m.sender) != currentUser && Some(m.sender) != chatWith && Some(m.receiver) != currentUser)
  }

  /** `msg.sender === currentUser ? "sent" : "received"`. */
  function TagOf(currentUser: Option<string>, m: Message): Tag
  {
    if Some(m.sender) == currentUser then Sent else Received
  }

  /** `if (currentUser) socket.emit("registerUser", { username: currentUser })` on page load:
      the username sent, if any. */
  function Registration(currentUser: Option<string>): (r: Option<string>)
    ensures r.Some? <==> Truthy(currentUser)
    ensures r.Some? ==> r == currentUser
  {
    if Truthy(currentUser) then currentUser else None
  }

  /** The event the submit handler emits for the given input text, if any: only when the trimmed
      text is non-empty, and then with the trimmed text, the logged-in user as sender and the
      form's receiver field. */
  function Outgoing(currentUser: Option<string>, receiver: string, text: string): (r: Option<Payload>)
    ensures r.Some? <==> exists i :: 0 <= i < |text| && !IsJsSpace(text[i])
    ensures r.Some? ==> r.value.sender == currentUser && r.value.receiver == Some(receiver)
    ensures r.Some? ==> r.value.text == Some(Trim(text))
  {
    TrimEmptyIff(text);
    if Trim(text) != "" then Some(Payload(currentUser, Some(receiver), Some(Trim(text)))) else None
  }

  /** One open chat page and the parts of its DOM the script reads and writes. */
  class ChatWindow {
    /** `document.querySelector("body").dataset.username`. */
    const currentUser: Option<string>
    /** Whether the page has a `.message-form`; without one no submit listener is attached. */
    const hasForm: bool
    /** The `.messages` container's bubbles, or `None` when the page has no such container. */
    var transcript: Option<seq<Bubble>>
    /** The value of `input[name='receiver']`, or `None` when there is no such input. */
    var receiverField: Option<string>
    /** The value of the form's `input[name='text']`, or `None` when there is no such input. */
    var textField: Option<string>

    constructor (currentUser: Option<string>, hasForm: bool, transcript: Option<seq<Bubble>>,
                 receiverField: Option<string>, textField: Option<string>)
      ensures this.currentUser == currentUser && this.hasForm == hasForm
      ensures this.transcript == transcript && this.receiverField == receiverField
      ensures this.textField == textField
    {
      this.currentUser := currentUser;
      this.hasForm := hasForm;
      this.transcript := transcript;
      this.receiverField := receiverField;
      this.textField := textField;
    }

    /** The `chatMessage` listener: with no container, or for a message the filter rejects,
        nothing changes; otherwise one bubble is appended after the existing ones. */
    method OnChatMessage(m: Message)
      modifies this`transcript
      ensures old(transcript).None? || !Shows(currentUser, receiverField, m) ==>
        transcript == old(transcript)
      ensures old(transcript).Some? && Shows(currentUser, receiverField, m) ==>
        transcript == Some(old(transcript).value + [Bubble(m.sender, m.text, TagOf(currentUser, m))])
    {
      if transcript.None? {
        return;
      }
      var chatWith := receiverField;
      if Some(m.sender) != currentUser && Some(m.sender) != chatWith && Some(m.receiver) != currentUser {
        return;
      }
      var tag := if Some(m.sender) == currentUser then Sent else Received;
      transcript := Some(transcript.value + [Bubble(m.sender, m.text, tag)]);
    }

    /** The submit listener: reading `.value` of a missing receiver or text input throws, so
        nothing is sent; a blank text sends nothing and keeps the input; otherwise the trimmed
        text is emitted and the text input cleared. The transcript is left to the server's echo. */
    method Submit() returns (sent: Option<Payload>)
      modifies this`textField
      ensures !hasForm || receiverField.None? || old(textField).None? ==>
        sent == None && textField == old(textField)
      ensures hasForm && receiverField.Some? && old(textField).Some? ==>
        sent == Outgoing(currentUser, receiverField.value, old(textField).value)
      ensures textField == if sent.Some? then Some("") else old(textField)
    {
      if !hasForm || receiverField.None? || textField.None? {
        return None;
      }
      var receiver := receiverField.value;
      var trimmed := Trim(textField.value);
      if trimmed != "" {
        sent := Some(Payload(currentUser, Some(receiver), Some(trimmed)));
        textField := Some("");
      } else {
        sent := None;
      }
    }
  }

  // ---------------------------------------------------------------------------------------
  // Properties of the arrival filter

  /** The filter is symmetric in the two ends of an exchange: a message from a to b is drawn
      both for a with b open and for b with a open. */
  lemma ShowsSymmetric(a: string, b: string, m: Message)
    requires m.sender == a && m.receiver == b
    ensures Shows(Some(a), Some(b), m) && Shows(Some(b), Some(a), m)
  {
  }

  /** The filter accepts every message of the open pair, in either direction. */
  lemma ShowsOpenPair(me: string, partner: string, m: Message)
    requires (m.sender == me && m.receiver == partner) || (m.sender == partner && m.receiver == me)
    ensures Shows(Some(me), Some(partner), m)
  {
  }

  /** It is not a pair match: with bob open, alice also sees what bob sends to carol, and what
      carol sends to her, each in the bob conversation. */
  lemma ShowsBeyondOpenPair(now: int)
    ensures Shows(Some("alice"), Some("bob"), Message("bob", "carol", "hi", now))
    ensures Shows(Some("alice"), Some("bob"), Message("carol", "alice", "hi", now))
    ensures !Shows(Some("alice"), Some("bob"), Message("carol", "dave", "hi", now))
  {
  }

  /** What the filter accepts, stated positively. */
  lemma ShowsIff(currentUser: Option<string>, chatWith: Option<string>, m: Message)
    ensures Shows(currentUser, chatWith, m) <==>
      currentUser == Some(m.sender) || chatWith == Some(m.sender) || currentUser == Some(m.receiver)
  {
  }

  /** A bubble is tagged `sent` exactly when the logged-in user is its sender. */
  lemma TagSentIff(currentUser: Option<string>, m: Message)
    ensures TagOf(currentUser, m) == Sent <==> currentUser == Some(m.sender)
  {
  }

  /** The page registers its user exactly when `data-username` is truthy, and the server then
      maps that user to the page's socket; otherwise the registry is untouched. */
  lemma PageLoadRegisters(t: Table, currentUser: Option<string>, c: SocketId)
    ensures Truthy(currentUser) ==> Lookup(Registered(t, Registration(currentUser), c), currentUser.value) == Some(c)
    ensures !Truthy(currentUser) ==> Registered(t, Registration(currentUser), c) == t
  {
  }

  /** End to end: when alice submits a text with a non-blank character to bob and the store is
      up, the saved message carries the trimmed text; its echo is drawn on alice's page tagged
      `sent` whatever partner is open, and on bob's page whatever partner is open there, tagged
      `received` unless bob is alice. */
  lemma SubmitThenDeliver(alice: string, bob: string, text: string, now: int, open1: Option<string>, open2: Option<string>)
    requires alice != "" && bob != ""
    requires exists i :: 0 <= i < |text| && !IsJsSpace(text[i])
    ensures var p := Outgoing(Some(alice), bob, text).value;
      var saved := Saved(Draft(p.sender, p.receiver, p.text, now), true);
      && saved == Some(Message(alice, bob, Trim(text), now))
      && Shows(Some(alice), open1, saved.value) && TagOf(Some(alice), saved.value) == Sent
      && Shows(Some(bob), open2, saved.value)
      && (alice != bob ==> TagOf(Some(bob), saved.value) == Received)
  {
    TrimEmptyIff(text);
  }

  /** A page without a logged-in user, or with an empty receiver field, sends a payload that the
      schema rejects: the save fails, so nothing is stored and nothing is emitted, and the
      server's handler ends in a rejected promise that nothing handles. */
  lemma IncompleteSubmitIsRejected(currentUser: Option<string>, receiver: string, text: string, now: int, up: bool)
    requires !Truthy(currentUser) || receiver == ""
    requires Outgoing(currentUser, receiver, text).Some?
    ensures var p := Outgoing(currentUser, receiver, text).value;
      Saved(Draft(p.sender, p.receiver, p.text, now), up) == None
  {
  }
}
