/** What an Express handler sees of a request besides its parameters, and what it answers:
    the session, the flash notice it leaves for the next page, and the response. */
module Http {
  import opened Common
  import opened Store

  /** `req.session.user`, as stored at login. */
  datatype SessionUser = SessionUser(id: UserId, username: string, email: string)

  /** The server-side session object of one browser, changed in place by the handlers. */
  class Session {
    var user: Option<SessionUser>
    var lastChatUrl: Option<string>

    constructor (user: Option<SessionUser>, lastChatUrl: Option<string>)
      ensures this.user == user && this.lastChatUrl == lastChatUrl
    {
      this.user := user;
      this.lastChatUrl := lastChatUrl;
    }
  }

  /** The `req.flash(...)` notice a handler leaves; `name` is the username it mentions. */
  datatype Flash =
    | NoFlash
    | CannotChatWithSelf        // "You can't chat with yourself."
    | EnterUsername             // "Please enter a username."
    | UserNotFound              // "User not found"
    | ChattingWith(name: string)
    | FieldsRequired            // "Message and receiver are required."
    | MessageSent
    | SendFailed                // "Failed to send message."
    | ChatStarted(name: string)
    | ProfileUserNotFound       // "User not found." on the profile page
    | UsernameTaken
    | EmailTaken
    | ProfileUpdated

  /** What `res.render("index", ...)` receives on the chat page. */
  datatype ChatView = ChatView(user: SessionUser, messages: seq<Message>, chatPartners: seq<string>, chatWith: Option<string>)

  /** A handler's answer: a redirect with the notice it flashed, or the rendered chat page. */
  datatype Response = Redirect(location: string, flash: Flash) | RenderChat(view: ChatView)

  /** The chat URL for a partner, built by plain concatenation (`/chat?with=${name}`). */
  function ChatWithUrl(name: string): (url: string)
    ensures |url| == 11 + |name| && url[..11] == "/chat?with=" && url[11..] == name
  {
    "/chat?with=" + name
  }

  /** `isAuthenticated` (routes/chat.js, routes/profile.js, app.js): lets the request through
      (`None`, i.e. `next()`) exactly when the session holds a user, and otherwise answers with
      a redirect to the login page. */
  function Guard(user: Option<SessionUser>): (r: Option<Response>)
    ensures r.None? <==> user.Some?
    ensures r.Some? ==> r.value.Redirect? && r.value.location == "/login" && r.value.flash == NoFlash
  {
    if user.Some? then None else Some(Redirect("/login", NoFlash))
  }
}
