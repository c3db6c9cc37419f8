/** routes/profile.js, `POST /profile/update`: an ordered chain of rejections, then the user
    record and the session take the new username and email, and a changed username is rewritten
    in every stored message. */
module ProfileRoutes {
  import opened Common
  import opened Store
  import opened Http

  /** `User.findOne({ username, _id: { $ne: id } })` is non-null. */
  predicate NameTakenByOther(users: seq<User>, id: UserId, username: string)
  {
    exists v :: v in users && v.username == username && v.id != id
  }

  /** `User.findOne({ email, _id: { $ne: id } })` is non-null. */
  predicate EmailTakenByOther(users: seq<User>, id: UserId, email: string)
  {
    exists v :: v in users && v.email == email && v.id != id
  }

  /** The outcome of the checks: the notice of the first that failed, or the record found. */
  datatype Verdict = Rejected(flash: Flash) | Accepted(current: User)

  /** The checks, in the order the handler runs them: the session's user must still exist; then
      no other user may hold the new username; then no other user may hold the new email. */
  function CheckUpdate(users: seq<User>, id: UserId, username: string, email: string): (v: Verdict)
    ensures FindById(users, id).None? ==> v == Rejected(ProfileUserNotFound)
    ensures FindById(users, id).Some? && NameTakenByOther(users, id, username) ==> v == Rejected(UsernameTaken)
    ensures FindById(users, id).Some? && !NameTakenByOther(users, id, username) && EmailTakenByOther(users, id, email) ==>
      v == Rejected(EmailTaken)
    ensures v.Accepted? <==>
      FindById(users, id).Some? && !NameTakenByOther(users, id, username) && !EmailTakenByOther(users, id, email)
    ensures v.Accepted? ==> v.current.id == id && v.current in users
  {
    match FindById(users, id)
    case None => Rejected(ProfileUserNotFound)
    case Some(current) =>
      if NameTakenByOther(users, id, username) then Rejected(UsernameTaken)
      else if EmailTakenByOther(users, id, email) then Rejected(EmailTaken)
      else Accepted(current)
  }

  /** `User.findByIdAndUpdate(id, { username, email })`: the record with this id (ids are unique
      in the collection) takes the new username and email; every other record is unchanged. */
  function SetProfile(users: seq<User>, id: UserId, username: string, email: string): (r: seq<User>)
    ensures |r| == |users|
  {
    seq(|users|, i requires 0 <= i < |users| =>
      if users[i].id == id then User(id, username, email) else users[i])
  }

  /** `Message.updateMany({ sender: old }, { $set: { sender: new } })`. */
  function RenameSender(msgs: seq<Message>, from: string, to: string): (r: seq<Message>)
    ensures |r| == |msgs|
  {
    seq(|msgs|, i requires 0 <= i < |msgs| =>
      if msgs[i].sender == from then msgs[i].(sender := to) else msgs[i])
  }

  /** `Message.updateMany({ receiver: old }, { $set: { receiver: new } })`. */
  function RenameReceiver(msgs: seq<Message>, from: string, to: string): (r: seq<Message>)
    ensures |r| == |msgs|
  {
    seq(|msgs|, i requires 0 <= i < |msgs| =>
      if msgs[i].receiver == from then msgs[i].(receiver := to) else msgs[i])
  }

  /** The two updates, senders first and receivers second. */
  function Rename(msgs: seq<Message>, from: string, to: string): seq<Message>
  {
    RenameReceiver(RenameSender(msgs, from, to), from, to)
  }

  /** Ids are unique, as Mongo's `_id` is. */
  ghost predicate UniqueIds(users: seq<User>)
  {
    forall i, j :: 0 <= i < j < |users| ==> users[i].id != users[j].id
  }

  /** No two users share a username, nor an email. */
  ghost predicate UniqueNamesAndEmails(users: seq<User>)
  {
    forall i, j :: 0 <= i < j < |users| ==> users[i].username != users[j].username && users[i].email != users[j].email
  }

  /** After an update the user's record reads back with the new username and email, and every
      other user's record is as it was. */
  lemma SetProfileSpec(users: seq<User>, id: UserId, username: string, email: string)
    requires FindById(users, id).Some?
    ensures FindById(SetProfile(users, id, username, email), id) == Some(User(id, username, email))
    ensures forall i :: 0 <= i < |users| && users[i].id != id ==> SetProfile(users, id, username, email)[i] == users[i]
  {
    var r := SetProfile(users, id, username, email);
    var k :| 0 <= k < |users| && users[k].id == id;
    FindFirstUpdated(users, id, username, email, k);
  }

  lemma {:induction false} FindFirstUpdated(users: seq<User>, id: UserId, username: string, email: string, k: nat)
    requires k < |users| && users[k].id == id
    ensures FindById(SetProfile(users, id, username, email), id) == Some(User(id, username, email))
  {
    var r := SetProfile(users, id, username, email);
    if users[0].id != id {
      assert r[1..] == SetProfile(users[1..], id, username, email);
      FindFirstUpdated(users[1..], id, username, email, k - 1);
    }
  }

  /** The checks are what keep usernames and emails unique: an accepted update of a collection
      with unique ids, usernames and emails leaves them unique. */
  lemma AcceptedUpdateKeepsUnique(users: seq<User>, id: UserId, username: string, email: string)
    requires UniqueIds(users) && UniqueNamesAndEmails(users)
    requires CheckUpdate(users, id, username, email).Accepted?
    ensures UniqueIds(SetProfile(users, id, username, email))
    ensures UniqueNamesAndEmails(SetProfile(users, id, username, email))
  {
    var r := SetProfile(users, id, username, email);
    forall i, j | 0 <= i < j < |r|
      ensures r[i].id != r[j].id && r[i].username != r[j].username && r[i].email != r[j].email
    {
      if users[i].id == id {
        assert users[j] in users;
      } else if users[j].id == id {
        assert users[i] in users;
      }
    }
  }

  /** The rename rewrites exactly the fields equal to the old name: every sender equal to it and
      every receiver equal to it becomes the new name, every other field, text and time is kept,
      and no message is added or lost. */
  lemma RenameSpec(msgs: seq<Message>, from: string, to: string)
    ensures |Rename(msgs, from, to)| == |msgs|
    ensures forall i :: 0 <= i < |msgs| ==>
      var m, m' := msgs[i], Rename(msgs, from, to)[i];
      && m'.sender == (if m.sender == from then to else m.sender)
      && m'.receiver == (if m.receiver == from then to else m.receiver)
      && m'.text == m.text && m'.createdAt == m.createdAt
  {
  }

  /** After renaming to a different name, no message mentions the old name. */
  lemma RenameForgetsOld(msgs: seq<Message>, from: string, to: string)
    requires from != to
    ensures forall m :: m in Rename(msgs, from, to) ==> m.sender != from && m.receiver != from
  {
    RenameSpec(msgs, from, to);
  }

  /** `POST /profile/update`: through the guard; a failed check redirects to `/profile` and
      changes nothing; otherwise the record and the session take the new username and email,
      the messages are renamed when the username changed, and the browser goes to `/chat`. */
  method Update(session: Session, db: Database, username: string, email: string) returns (r: Response)
    modifies session`user, db`users, db`messages
    ensures old(session.user).None? ==>
      && r == Redirect("/login", NoFlash)
      && session.user == old(session.user) && db.users == old(db.users) && db.messages == old(db.messages)
    ensures old(session.user).Some? ==>
      var su := old(session.user).value;
      var verdict := CheckUpdate(old(db.users), su.id, username, email);
      && (verdict.Rejected? ==>
            && r == Redirect("/profile", verdict.flash)
            && session.user == old(session.user) && db.users == old(db.users) && db.messages == old(db.messages))
      && (verdict.Accepted? ==>
            && db.users == SetProfile(old(db.users), su.id, username, email)
            && session.user == Some(su.(username := username, email := email))
            && db.messages == (if verdict.current.username != username
                               then Rename(old(db.messages), verdict.current.username, username)
                               else old(db.messages))
            && r == Redirect("/chat", ProfileUpdated))
  {
    var blocked := Guard(session.user);
    if blocked.Some? {
      return blocked.value;
    }
    var su := session.user.value;
    var verdict := CheckUpdate(db.users, su.id, username, email);
    if verdict.Rejected? {
      return Redirect("/profile", verdict.flash);
    }
    var oldUsername := verdict.current.username;
    SetProfileSpec(db.users, su.id, username, email);
    db.users := SetProfile(db.users, su.id, username, email);
    var updated := FindById(db.users, su.id).value;
    session.user := Some(su.(username := updated.username, email := updated.email));
    if oldUsername != username {
      db.messages := RenameSender(db.messages, oldUsername, username);
      db.messages := RenameReceiver(db.messages, oldUsername, username);
    }
    r := Redirect("/chat", ProfileUpdated);
  }
}
