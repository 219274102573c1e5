/**
  The values the board's request handler works on: its configuration, an
  abstract request, the announcements kept in the key-value store, the health
  of that store during one request, and the responses the handler produces
  (their status and the kind of body, not the HTML or the headers).
 */
module Types {
  import opened Text

  /**
    Worker configuration. An empty string stands for a variable that is unset
    (or falsy, which the handler treats the same way).
   */
  datatype Config = Config(
    authKey: string,   // AUTH_KEY, the shared secret
    pw: string,        // PW, the older name of the shared secret
    apiToken: string,  // API_TOKEN
    homeUrl: string    // HOME_URL, the base path of the board
  ) {
    /** `env.HOME_URL || '/'` */
    function Base(): string {
      if homeUrl == "" then "/" else homeUrl
    }

    /** The base path with a leading `/` added when it lacks one. */
    function NormalizedBase(): (b: string)
      ensures StartsWith(b, "/")
    {
      if StartsWith(Base(), "/") then Base() else "/" + Base()
    }
  }

  /** A JSON value found in a request field, as far as the handler can tell it apart. */
  datatype Field =
    | Absent                 // the field is missing (`undefined`)
    | Str(s: string)         // a JSON string
    | Other(truthy: bool)    // a number, boolean, null, object or array

  /** The body of an API request, as `request.json()` delivers it. */
  datatype Payload =
    | Unparsable             // `request.json()` rejected
    | JsonNull               // the literal `null`: reading a field of it throws
    | Record(id: Field, title: Field, content: Field)   // any other JSON value

  /** A request, after URL parsing and body extraction. */
  datatype Request = Request(
    verb: string,                   // the HTTP method
    path: string,                   // the URL pathname, in its original case
    cookie: string,                 // the Cookie header, "" when absent
    authorization: string,          // the Authorization header, "" when absent
    loginPassword: Option<string>,  // the raw `password` field of a login form;
                                    // "" when absent, None when the body could not be read
    page: Option<int>,              // `parseInt` of the `page` query parameter, if any
    payload: Payload                // the JSON body of an API write
  )

  datatype Announcement = Announcement(
    id: string,
    title: string,
    content: string,
    createdAt: string,
    updatedAt: Option<string>
  )

  /** How the key-value binding behaves during one request. */
  datatype Kv = Kv(
    bound: bool,     // env.KV is present
    listOk: bool,    // KV.list succeeds
    readOk: bool,    // KV.get succeeds
    writeOk: bool    // KV.put and KV.delete succeed
  )

  datatype ErrorKind =
    | ApiTokenRejected        // API path without a valid API token
    | WrongPassword           // API login with the wrong password
    | LoginRequestFailed      // login body could not be read
    | AuthRequired            // unauthenticated request to an API path
    | KvUnbound               // the KV binding is missing
    | ListFailed              // KV.list threw
    | ReadFailed              // KV.get threw
    | WriteFailed             // KV.put or KV.delete threw
    | InvalidJson             // the body is not JSON
    | MalformedData           // a TypeError while reading the body's fields
    | MissingTitleOrContent
    | DuplicateId(id: string)
    | IdMismatch
    | NotFound

  /** The result of listing one page of announcements. */
  datatype Listing = Listing(
    items: seq<Announcement>,
    currentPage: int,
    totalPages: int,
    totalItems: int,
    error: Option<ErrorKind>
  )

  datatype SetCookie = IssueToken(value: string) | ClearToken

  datatype Body =
    | NoBody
    | ForbiddenText
    | LoginForm(showError: bool)
    | Redirect(location: string, cookie: SetCookie)
    | BoardPage(listing: Listing, admin: bool)
    | LoadFailedPage(error: ErrorKind)
    | JsonError(error: ErrorKind)
    | JsonSuccess
    | JsonCreated(id: string)
    | JsonAlreadyDeleted
    | JsonListing(listing: Listing)
    | JsonAnnouncement(announcement: Announcement)

  datatype Response = Response(status: nat, body: Body)
}
