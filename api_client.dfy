/**
 * The API client of frontend/src/services/api.js: the request interceptor
 * that attaches the bearer token (section 2.1 of RFC 6750) and the requests
 * `authService` and `postService` send. The HTTP transport is not modelled;
 * a request is the method, path and JSON body the client hands to it.
 */
module ApiClient {
  import opened Wrappers
  import opened Text
  import opened SessionStore

  datatype HttpMethod = Get | Post | Put | Delete

  /** A request as handed to the transport; a JSON body is a map of string fields. */
  datatype Request = Request(verb: HttpMethod, path: string, body: Option<map<string, string>>)

  /** `error.response?.data?.detail` of a failed request: absent, a message, or FastAPI's list of validation errors. */
  datatype ErrorDetail = NoDetail | TextDetail(text: string) | ListDetail

  /** The body `/auth/login` answers with, to which `authService.login` resolves. */
  datatype LoginBody = LoginBody(accessToken: string, tokenType: string, username: string)

  // ------------------------------------------------------------ interceptor

  const AuthorizationHeader := "Authorization"

  /** The header value of section 2.1 of RFC 6750. */
  function BearerValue(token: string): string
  {
    "Bearer " + token
  }

  /**
   * The interceptor's rule: with a stored record whose token is truthy,
   * `Authorization` is set to the bearer value; otherwise the headers are
   * left as they are.
   */
  function AttachBearer(headers: map<string, string>, stored: Option<StoredAuth>): (r: map<string, string>)
    ensures stored.Some? && stored.value.token != "" ==>
              AuthorizationHeader in r && r[AuthorizationHeader] == BearerValue(stored.value.token)
    ensures r - {AuthorizationHeader} == headers - {AuthorizationHeader}
    ensures stored.None? || stored.value.token == "" ==> r == headers
  {
    if stored.Some? && stored.value.token != "" then headers[AuthorizationHeader := BearerValue(stored.value.token)]
    else headers
  }

  /** An outgoing request's configuration; the interceptor edits its headers in place. */
  class RequestConfig {
    var headers: map<string, string>
    const request: Request

    constructor (headers: map<string, string>, request: Request)
      ensures this.headers == headers && this.request == request
    {
      this.headers := headers;
      this.request := request;
    }
  }

  /** The request interceptor: reads the store when the request is sent. */
  method Intercept(config: RequestConfig, storage: LocalStorage, key: string) returns (out: RequestConfig)
    modifies config
    ensures out == config
    ensures config.headers == AttachBearer(old(config.headers), ReadAuth(storage.items, storage.available, key))
  {
    var authData := GetStoredAuth(storage, key);
    if authData.Some? && authData.value.token != "" {
      config.headers := config.headers[AuthorizationHeader := BearerValue(authData.value.token)];
    }
    out := config;
  }

  /** Once a record has been written, every later request carries its token. */
  lemma RequestAfterWrite(headers: map<string, string>, items: map<string, string>, key: string, r: StoredAuth)
    requires r.token != ""
    ensures var h := AttachBearer(headers, ReadAuth(items[key := Serialize(r)], true, key));
            AuthorizationHeader in h && h[AuthorizationHeader] == BearerValue(r.token)
  {
    WriteThenRead(items, key, r);
  }

  // ------------------------------------------------------------- endpoints

  /** The back end's handlers, as its route decorators name them. */
  datatype Endpoint =
    | RegisterUser | LoginUser
    | ListPosts | CreatePost | MyPosts | EditPost(postId: int) | DeletePost(postId: int)
    | NoRoute

  /** The path of one post, `/posts/{id}`. */
  function PostPath(postId: int): string
  {
    "/posts/" + IntToString(postId)
  }

  /** The integer a `/posts/{post_id}` path carries, if it carries one. */
  function PostIdOfPath(path: string): Option<int>
  {
    if |path| > 7 && path[..7] == "/posts/" then ParseInt(path[7..]) else None
  }

  /**
   * The back end's routing of a method and path to a handler: the `/auth`
   * router's two POST routes and the `/posts` router's five routes.
   */
  function Route(verb: HttpMethod, path: string): Endpoint
  {
    if verb == Post && path == "/auth/register" then RegisterUser
    else if verb == Post && path == "/auth/login" then LoginUser
    else if verb == Get && path == "/posts/" then ListPosts
    else if verb == Post && path == "/posts/" then CreatePost
    else if verb == Get && path == "/posts/me" then MyPosts
    else if verb == Put && PostIdOfPath(path).Some? then EditPost(PostIdOfPath(path).value)
    else if verb == Delete && PostIdOfPath(path).Some? then DeletePost(PostIdOfPath(path).value)
    else NoRoute
  }

  /** `/posts/{id}` is read back as the same id. */
  lemma PostPathRoundTrip(postId: int)
    ensures PostIdOfPath(PostPath(postId)) == Some(postId)
  {
    var p := PostPath(postId);
    assert p[..7] == "/posts/";
    assert p[7..] == IntToString(postId);
    IntToStringRoundTrip(postId);
  }

  // --------------------------------------------------------------- requests

  /** `authService.register`: POSTs the three fields to the register handler. */
  function RegisterRequest(username: string, email: string, password: string): (r: Request)
    ensures Route(r.verb, r.path) == RegisterUser
    ensures r.body == Some(map["username" := username, "email" := email, "password" := password])
  {
    Request(Post, "/auth/register", Some(map["username" := username, "email" := email, "password" := password]))
  }

  /** `authService.login`: POSTs the credentials to the login handler. */
  function LoginRequest(username: string, password: string): (r: Request)
    ensures Route(r.verb, r.path) == LoginUser
    ensures r.body == Some(map["username" := username, "password" := password])
  {
    Request(Post, "/auth/login", Some(map["username" := username, "password" := password]))
  }

  /** `postService.getAllPosts`: a bodiless GET that reaches the public feed. */
  function GetAllPostsRequest(): (r: Request)
    ensures Route(r.verb, r.path) == ListPosts && r.body.None?
  {
    Request(Get, "/posts/", None)
  }

  /** `postService.getMyPosts`: a bodiless GET that reaches the own-posts list. */
  function GetMyPostsRequest(): (r: Request)
    ensures Route(r.verb, r.path) == MyPosts && r.body.None?
  {
    Request(Get, "/posts/me", None)
  }

  /** `postService.createPost`: POSTs `{title, content}` to the create handler. */
  function CreatePostRequest(title: string, content: string): (r: Request)
    ensures Route(r.verb, r.path) == CreatePost
    ensures r.body == Some(map["title" := title, "content" := content])
  {
    Request(Post, "/posts/", Some(map["title" := title, "content" := content]))
  }

  /** `postService.updatePost`: a PUT of `{title, content}` that reaches the edit handler for that id. */
  function UpdatePostRequest(postId: int, title: string, content: string): (r: Request)
    ensures r.verb == Put && Route(r.verb, r.path) == EditPost(postId)
    ensures r.body == Some(map["title" := title, "content" := content])
  {
    PostPathRoundTrip(postId);
    Request(Put, PostPath(postId), Some(map["title" := title, "content" := content]))
  }

  /** `postService.deletePost`: a bodiless DELETE that reaches the delete handler for that id. */
  function DeletePostRequest(postId: int): (r: Request)
    ensures r.verb == Delete && Route(r.verb, r.path) == DeletePost(postId) && r.body.None?
  {
    PostPathRoundTrip(postId);
    Request(Delete, PostPath(postId), None)
  }
}
