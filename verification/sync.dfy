/** The manual cloud sync of the fully automatic page: a GitHub token and a
    Gist id kept next to the collections, `saveRemoteData` (push),
    `loadRemoteData` (pull) and `setToken`. The HTTP exchange is not
    modelled: each operation reports the request it would send and takes
    the reply as an input. */
module Sync {
  import opened Wrappers
  import opened Records
  import opened Strings
  import opened Persistence
  import Facade

  const GistsEndpoint := "https://api.github.com/gists"
  const DataFilename := "blog_data.json"
  const GistDescription := "自建服务与博客备忘录数据"
  /** What the token field shows once a token is set (eight U+2022 bullets). */
  const MaskedToken := "••••••••"
  const UnknownError := "未知错误"

  /** The manager with sync: `token` and `gistId` use `""` for `null`. */
  datatype Session = Session(app: Facade.App, token: string, gistId: string)

  /** A reload reproduces the collections, the token and the Gist id. */
  predicate Consistent(s: Session) {
    && Facade.Consistent(s.app)
    && LoadString(s.app.storage.githubToken) == s.token
    && LoadString(s.app.storage.gistId) == s.gistId
  }

  /** The parsed `content` of the data file: the snapshot that was pushed. */
  datatype SyncDocument = SyncDocument(links: seq<Link>, blogPosts: seq<Memo>, timestamp: string)

  /** The `gistData` request body. */
  datatype GistBody = GistBody(description: string, isPublic: bool, files: map<string, SyncDocument>)

  datatype Method = GET | POST | PATCH

  /** A `fetch` call: method, url, the `Authorization` header and the body. */
  datatype Request = Request(verb: Method, url: string, authorization: string, body: Option<GistBody>)

  /** The outcome of a `fetch`: a reply with `response.ok` and its parsed
      payload, a reply without it and its error `message` (`""` when it has
      none), or a rejected promise and the error's message. */
  datatype Reply<T> = Success(payload: T) | HttpError(message: string) | NetworkError(message: string)

  /** The `content` of a file of a fetched Gist, as far as the pull cares:
      absent or empty, not JSON (the message `JSON.parse` throws), or a
      parsed object whose `links`/`blogPosts` are present or missing. */
  datatype FileContent = Blank | Malformed(error: string)
                       | Parsed(links: Option<seq<Link>>, blogPosts: Option<seq<Memo>>)

  /** The status line each operation ends with. */
  datatype Notice =
    | Silent | TokenSaved | TokenCleared | TokenRequired | GistIdRequired
    | SavedToCloud | SaveFailed(detail: string)
    | LoadedFromCloud | DataFileMissing | RemoteFormatInvalid | LoadFailed(detail: string)

  /** What an operation leaves behind: the new state, the request it sent,
      if any, and its status line. */
  datatype Outcome = Outcome(session: Session, request: Option<Request>, notice: Notice)

  /** The constructor with sync: the collections, then the two strings. */
  function Open(st: Storage): (r: Result<Session, LoadError>)
    ensures r.Failure? <==> Facade.Open(st).Failure?
    ensures r.Ok? ==> Consistent(r.value) && r.value.app.storage == st
  {
    match Facade.Open(st)
    case Failure(e) => Failure(e)
    case Ok(app) => Ok(Session(app, LoadString(st.githubToken), LoadString(st.gistId)))
  }

  /** The reply's `message`, or the fallback text when it has none. */
  function Detail(message: string): string {
    if message == "" then UnknownError else message
  }

  /** `setToken()`: a blank field clears the token and removes its key; the
      masked placeholder is ignored; anything else is stored trimmed. No
      request is sent, and no key but `githubToken` is ever written. */
  function SetToken(s: Session, input: string): (r: Outcome)
    ensures r.request.None?
    ensures r.session.app.links == s.app.links && r.session.app.posts == s.app.posts
    ensures r.session.gistId == s.gistId
    ensures r.session.app.storage.(githubToken := s.app.storage.githubToken) == s.app.storage
    ensures IsBlank(input) ==>
              r.session.token == "" && r.session.app.storage.githubToken.None? && r.notice == TokenCleared
    ensures Trim(input) == MaskedToken ==> r.session == s && r.notice == Silent
    ensures !IsBlank(input) && Trim(input) != MaskedToken ==>
              r.session.token == Trim(input) && r.session.app.storage.githubToken == Some(Trim(input))
              && r.notice == TokenSaved
    ensures Consistent(s) ==> Consistent(r.session)
  {
    var token := Trim(input);
    if token != "" && token != MaskedToken then
      Outcome(s.(token := token, app := s.app.(storage := WriteToken(s.app.storage, Some(token)))),
              None, TokenSaved)
    else if token == "" then
      Outcome(s.(token := "", app := s.app.(storage := WriteToken(s.app.storage, None))),
              None, TokenCleared)
    else
      Outcome(s, None, Silent)
  }

  /** The request `saveRemoteData()` sends: a PATCH of the known Gist, or a
      POST creating one when there is no Gist id yet; either way a private
      Gist whose single file holds the current collections. */
  function PushRequest(s: Session, now: string): (q: Request)
    ensures q.verb == PATCH <==> s.gistId != ""
    ensures q.verb == POST <==> s.gistId == ""
    ensures q.url == if s.gistId != "" then GistsEndpoint + "/" + s.gistId else GistsEndpoint
    ensures q.authorization == "token " + s.token
    ensures q.body.Some? && !q.body.value.isPublic && q.body.value.files.Keys == {DataFilename}
    ensures q.body.value.files[DataFilename].links == s.app.links
    ensures q.body.value.files[DataFilename].blogPosts == s.app.posts
  {
    var body := GistBody(GistDescription, false, map[DataFilename := SyncDocument(s.app.links, s.app.posts, now)]);
    if s.gistId != "" then Request(PATCH, GistsEndpoint + "/" + s.gistId, "token " + s.token, Some(body))
    else Request(POST, GistsEndpoint, "token " + s.token, Some(body))
  }

  /** `saveRemoteData()`: without a token nothing is sent and nothing
      changes. Otherwise the push is sent; only an ok reply changes the
      state, and then only by adopting (and storing) the returned Gist id.
      The collections and the token are never changed by a push, and no
      key but `gistId` is ever written. */
  function SaveRemoteData(s: Session, now: string, reply: Reply<string>): (r: Outcome)
    ensures s.token == "" ==> r == Outcome(s, None, TokenRequired)
    ensures s.token != "" ==> r.request == Some(PushRequest(s, now))
    ensures r.session.app.links == s.app.links && r.session.app.posts == s.app.posts
    ensures r.session.token == s.token
    ensures r.session.app.storage.(gistId := s.app.storage.gistId) == s.app.storage
    ensures s.token != "" && reply.Success? ==>
              r.session.gistId == reply.payload && r.session.app.storage.gistId == Some(reply.payload)
              && r.notice == SavedToCloud
    ensures !reply.Success? ==> r.session == s
    ensures s.token != "" && reply.HttpError? ==> r.notice == SaveFailed(Detail(reply.message))
    ensures s.token != "" && reply.NetworkError? ==> r.notice == SaveFailed(reply.message)
    ensures Consistent(s) ==> Consistent(r.session)
  {
    if s.token == "" then Outcome(s, None, TokenRequired)
    else
      var request := Some(PushRequest(s, now));
      match reply
      case Success(id) =>
        Outcome(s.(gistId := id, app := s.app.(storage := WriteGistId(s.app.storage, id))),
                request, SavedToCloud)
      case HttpError(message) => Outcome(s, request, SaveFailed(Detail(message)))
      case NetworkError(message) => Outcome(s, request, SaveFailed(message))
  }

  /** The request `loadRemoteData()` sends: a bodiless GET of
      `gists/<gistId>`, the very Gist a push with that id updates, with the
      same credentials. */
  function PullRequest(s: Session): (q: Request)
    ensures q.verb == GET && q.body == None
    ensures q.url == GistsEndpoint + "/" + s.gistId
    ensures q.authorization == "token " + s.token
    ensures s.gistId != "" ==> forall now :: PushRequest(s, now).url == q.url
    ensures forall now :: PushRequest(s, now).authorization == q.authorization
  {
    Request(GET, GistsEndpoint + "/" + s.gistId, "token " + s.token, None)
  }

  /** True when a pull reply carries a data file whose parsed content has
      both collections; these are the only replies that replace local data. */
  predicate Usable(reply: Reply<map<string, FileContent>>) {
    && reply.Success? && DataFilename in reply.payload
    && reply.payload[DataFilename].Parsed?
    && reply.payload[DataFilename].links.Some? && reply.payload[DataFilename].blogPosts.Some?
  }

  /** `loadRemoteData()`: the token is checked first, then the Gist id, and
      without either nothing is sent. Otherwise the GET is sent, and the
      collections are replaced by the remote ones, and saved, exactly when
      the reply is usable; every other reply leaves the state as it was.
      The token and the Gist id never change, and no key but the two
      collection keys is ever written. */
  function LoadRemoteData(s: Session, reply: Reply<map<string, FileContent>>): (r: Outcome)
    ensures s.token == "" ==> r == Outcome(s, None, TokenRequired)
    ensures s.token != "" && s.gistId == "" ==> r == Outcome(s, None, GistIdRequired)
    ensures s.token != "" && s.gistId != "" ==> r.request == Some(PullRequest(s))
    ensures r.session.token == s.token && r.session.gistId == s.gistId
    ensures r.session.app.storage.(serviceLinks := s.app.storage.serviceLinks,
                                   blogPosts := s.app.storage.blogPosts) == s.app.storage
    ensures s.token != "" && s.gistId != "" && Usable(reply) ==>
              && r.session.app.links == reply.payload[DataFilename].links.value
              && r.session.app.posts == reply.payload[DataFilename].blogPosts.value
              && r.session.app.storage.serviceLinks == Encoded(r.session.app.links)
              && r.session.app.storage.blogPosts == Encoded(r.session.app.posts)
              && r.notice == LoadedFromCloud
    ensures !Usable(reply) ==> r.session == s
    ensures Consistent(s) ==> Consistent(r.session)
  {
    if s.token == "" then Outcome(s, None, TokenRequired)
    else if s.gistId == "" then Outcome(s, None, GistIdRequired)
    else
      var request := Some(PullRequest(s));
      match reply
      case HttpError(message) => Outcome(s, request, LoadFailed(Detail(message)))
      case NetworkError(message) => Outcome(s, request, LoadFailed(message))
      case Success(files) =>
        if DataFilename !in files || files[DataFilename].Blank? then Outcome(s, request, DataFileMissing)
        else match files[DataFilename]
          case Malformed(error) => Outcome(s, request, LoadFailed(error))
          case Parsed(links, posts) =>
            if links.Some? && posts.Some? then
              var storage := SaveBlogPosts(SaveLinks(s.app.storage, links.value), posts.value);
              Outcome(s.(app := Facade.App(links.value, posts.value, storage)), request, LoadedFromCloud)
            else Outcome(s, request, RemoteFormatInvalid)
  }

  /** What a Gist read back after a push holds: each pushed file with its
      content parsed again. */
  function Published(body: GistBody): map<string, FileContent> {
    map name | name in body.files :: Parsed(Some(body.files[name].links), Some(body.files[name].blogPosts))
  }

  /** A successful push followed by a pull of the Gist it wrote (the remote
      keeping the last write) restores exactly the collections that were
      pushed, from the Gist id the push adopted. */
  lemma PushThenPull(s: Session, now: string, id: string)
    requires s.token != "" && id != ""
    ensures var pushed := SaveRemoteData(s, now, Success(id));
            var pulled := LoadRemoteData(pushed.session, Success(Published(pushed.request.value.body.value)));
            && pulled.request.value.url == GistsEndpoint + "/" + id
            && pulled.session.app.links == s.app.links
            && pulled.session.app.posts == s.app.posts
            && pulled.notice == LoadedFromCloud
  {
  }
}
