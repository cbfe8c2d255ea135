/** `Haile::Client`: a client for the Marathon REST API. Every operation
    builds a path (and sometimes a body) and hands it to `wrap_request`,
    which merges the per-call options over the client's default options,
    sends GET requests through the HTTP transport and wraps the outcome in a
    `Response`. Requests of any other verb are only logged and answered with
    `nil`: they never reach the transport.

    The transport (HTTParty) is a function parameter from the request handed
    to it to what it returned or the message of what it raised. The
    application that `scale` and `docker_deploy` fetch is a parameter too. */
module Haile {
  import opened RubyValues
  import opened RubyHash
  import opened QueryParams

  datatype Verb = GET | POST | PUT | DELETE

  /** A request as `wrap_request` builds it: verb, `@host + url`, merged options. */
  datatype Request = Request(verb: Verb, url: string, options: Entries)

  /** What the transport did with a request: returned a raw response, or raised. */
  datatype Transport = Returned(raw: Value) | Raised(message: string)

  /** `Haile::Response.new(http)` or `Haile::Response.error(message)`. */
  datatype Response = Response(raw: Value) | Error(message: string)

  /** One call of `wrap_request`: the request, and whether it was sent. */
  datatype Call = Call(request: Request, dispatched: bool)

  /** Everything an operation did: its `wrap_request` calls in order, and
      what it returned (`None` is Ruby's `nil`). */
  datatype Outcome = Outcome(calls: seq<Call>, reply: Option<Response>)

  const EDITABLE_APP_ATTRIBUTES: seq<string> :=
    ["cmd", "constraints", "container", "cpus", "env", "executor", "id", "instances", "mem", "ports", "uris"]

  const HOST_VARIABLE := "MARATHON_URL"
  const DEFAULT_HOST := "http://localhost:8080"

  const NO_DOCKER_IMAGE :=
    "App doesn't have a docker image configured. Make sure the ID is correct and that this app is already configured with a docker image."

  const BASIC_AUTH := SymKey("basic_auth")
  const PROXY_ADDR := SymKey("http_proxyaddr")
  const PROXY_PORT := SymKey("http_proxyport")
  const PROXY_USER := SymKey("http_proxyuser")
  const PROXY_PASS := SymKey("http_proxypass")
  const BODY := SymKey("body")
  const TASK_ID := SymKey("task_id")
  const INSTANCES := StrKey("instances")
  const CONTAINER := StrKey("container")
  const DOCKER := StrKey("docker")
  const IMAGE := StrKey("image")

  /** The reply `wrap_request` builds from what the transport did; its
      `rescue` turns a raised error into an error response with its message. */
  function Received(t: Transport): Response {
    match t
    case Returned(raw) => Response(raw)
    case Raised(message) => Error(message)
  }

  /** The `:body` option of a request, `nil` when there is none. */
  function BodyOf(r: Request): Value {
    Get(r.options, BODY)
  }

  /** The block of `app.select! { |k, v| EDITABLE_APP_ATTRIBUTES.include?(k) }`. */
  predicate Editable(e: (Key, Value)) {
    EditableKey(e.0)
  }

  /** `EDITABLE_APP_ATTRIBUTES.include?(k)`: only String keys can match. */
  predicate EditableKey(k: Key) {
    k.StrKey? && k.name in EDITABLE_APP_ATTRIBUTES
  }

  /** The fetched app after `select!`. */
  function EditableOnly(app: Entries): Entries {
    Select(app, Editable)
  }

  /** The filter keeps exactly the editable keys, with their values, in their
      original relative order. */
  lemma EditableFilter(app: Entries)
    ensures forall k :: HasKey(EditableOnly(app), k) <==> HasKey(app, k) && EditableKey(k)
    ensures forall k :: Find(EditableOnly(app), k) == if EditableKey(k) then Find(app, k) else None
    ensures Subsequence(EditableOnly(app), app)
    ensures forall e :: e in EditableOnly(app) ==> EditableKey(e.0)
    ensures Unique(app) ==> Unique(EditableOnly(app))
  {
    forall k {
      SelectByKeyFind(app, Editable, k);
    }
    SelectContents(app, Editable);
    if Unique(app) {
      SelectUnique(app, Editable);
    }
  }

  /** The assignment is possible: `container` is a Hash whose `docker` entry is
      a Hash, or a String in which `"image"` occurs (`String#[]=` then
      replaces that substring). */
  predicate DockerConfigured(app: Entries) {
    && Get(app, CONTAINER).Hash?
    && var docker := Get(Get(app, CONTAINER).entries, DOCKER);
       docker.Hash? || (docker.Str? && IndexOfSubstring(docker.s, "image").Some?)
  }

  /** `app['container']['docker']['image'] = image` inside `begin ... rescue`:
      the updated app, or None where Ruby raises (a `nil` or a non-Hash on the
      way, or a String without `"image"`). */
  function AssignImage(app: Entries, image: string): Option<Entries> {
    match Get(app, CONTAINER)
    case Hash(container) =>
      (match Get(container, DOCKER)
       case Hash(docker) =>
         Some(Store(app, CONTAINER, Hash(Store(container, DOCKER, Hash(Store(docker, IMAGE, Str(image)))))))
       case Str(s) =>
         (match ReplaceFirst(s, "image", image)
          case Some(s') => Some(Store(app, CONTAINER, Hash(Store(container, DOCKER, Str(s')))))
          case None => None)
       case _ => None)
    case _ => None
  }

  /** The assignment succeeds exactly when the app is docker-configured, and
      then changes `container.docker.image` and nothing else: every other key,
      at every level, reads as before and keeps its position. */
  lemma AssignImageSpec(app: Entries, image: string)
    ensures AssignImage(app, image).Some? <==> DockerConfigured(app)
    ensures AssignImage(app, image).Some? ==>
      var r := AssignImage(app, image).value;
      var container := Get(app, CONTAINER).entries;
      var docker := Get(container, DOCKER);
      && Keys(r) == Keys(app)
      && (forall k :: k != CONTAINER ==> Find(r, k) == Find(app, k))
      && Get(r, CONTAINER).Hash?
      && var container' := Get(r, CONTAINER).entries;
         && Keys(container') == Keys(container)
         && (forall k :: k != DOCKER ==> Find(container', k) == Find(container, k))
         && (docker.Hash? ==>
               && Get(container', DOCKER).Hash?
               && var docker' := Get(container', DOCKER).entries;
                  && Find(docker', IMAGE) == Some(Str(image))
                  && (forall k :: k != IMAGE ==> Find(docker', k) == Find(docker.entries, k))
                  && Keys(docker') == if HasKey(docker.entries, IMAGE) then Keys(docker.entries) else Keys(docker.entries) + [IMAGE])
         && (docker.Str? ==> Get(container', DOCKER).Str? && ReplaceFirst(docker.s, "image", image) == Some(Get(container', DOCKER).s))
  {
    match Get(app, CONTAINER) {
      case Hash(container) =>
        match Get(container, DOCKER) {
          case Hash(docker) =>
            var docker' := Store(docker, IMAGE, Str(image));
            var container' := Store(container, DOCKER, Hash(docker'));
            StoreAll(docker, IMAGE, Str(image));
            StoreAll(container, DOCKER, Hash(docker'));
            StoreAll(app, CONTAINER, Hash(container'));
          case Str(s) =>
            match ReplaceFirst(s, "image", image) {
              case Some(s') =>
                var container' := Store(container, DOCKER, Str(s'));
                StoreAll(container, DOCKER, Str(s'));
                StoreAll(app, CONTAINER, Hash(container'));
              case None =>
            }
          case _ =>
        }
      case _ =>
    }
  }

  /** The query `search` sends: `id=` and `cmd=` only for non-nil arguments. */
  function SearchParams(id: Value, cmd: Value): Entries {
    var empty: Entries := [];
    var withId := if id.Nil? then empty else Store(empty, SymKey("id"), id);
    if cmd.Nil? then withId else Store(withId, SymKey("cmd"), cmd)
  }

  /** The query `search` sends, spelled out for each combination of arguments. */
  lemma SearchQuery(id: Value, cmd: Value)
    ensures QueryString(SearchParams(id, cmd)) ==
      if id.Nil? && cmd.Nil? then ""
      else if cmd.Nil? then "id=" + ToS(id)
      else if id.Nil? then "cmd=" + ToS(cmd)
      else "id=" + ToS(id) + "&cmd=" + ToS(cmd)
  {
    var i, c := (SymKey("id"), id), (SymKey("cmd"), cmd);
    var params := SearchParams(id, cmd);
    assert Pair(i) == "id=" + ToS(id);
    assert Pair(c) == "cmd=" + ToS(cmd);
    if !id.Nil? && !cmd.Nil? {
      assert SymKey("id") != SymKey("cmd");
      assert [i][1..] == [];
      assert Store([i], SymKey("cmd"), cmd) == [i] + Store([], SymKey("cmd"), cmd);
      assert params == [i, c];
      assert [i, c][1..] == [c] && [c][1..] == [];
      assert NonNil(i) && NonNil(c);
      assert Select([c], NonNil) == [c] + Select([], NonNil);
      assert Select([i, c], NonNil) == [i] + Select([c], NonNil);
      assert Compact(params) == [i, c];
      assert Pairs([i, c]) == [Pair(i), Pair(c)];
      assert [Pair(i), Pair(c)][1..] == [Pair(c)];
      assert Join([Pair(i), Pair(c)], '&') == Pair(i) + "&" + Pair(c);
      assert Pair(i) + "&" + Pair(c) == "id=" + ToS(id) + "&cmd=" + ToS(cmd);
    } else if !id.Nil? {
      assert params == [i];
      assert [i][1..] == [] && NonNil(i);
      assert Select([i], NonNil) == [i] + Select([], NonNil);
    } else if !cmd.Nil? {
      assert params == [c];
      assert [c][1..] == [] && NonNil(c);
      assert Select([c], NonNil) == [c] + Select([], NonNil);
    } else {
      assert params == [];
    }
  }

  /** When `params[:task_id]` is nil, deleting it from the query changes nothing
      that `query_params` sends; so both branches of `kill_tasks` send the
      caller's parameters without `task_id`. */
  lemma NilTaskIdNotSent(params: Entries)
    requires Unique(params)
    requires Get(params, TASK_ID).Nil?
    ensures QueryString(Delete(params, TASK_ID)) == QueryString(params)
    ensures !HasKey(Compact(params), TASK_ID)
  {
    CompactDelete(params, TASK_ID);
    CompactDeleteAll(params, TASK_ID);
    DeleteFind(Compact(params), TASK_ID, TASK_ID);
  }

  lemma {:induction false} CompactDelete(h: Entries, k: Key)
    requires Unique(h)
    requires Get(h, k).Nil?
    ensures Compact(Delete(h, k)) == Compact(h)
  {
    if h != [] {
      if h[0].0 == k {
        NotPresentDelete(h[1..], k);
      } else {
        CompactDelete(h[1..], k);
        assert Delete(h, k) == [h[0]] + Delete(h[1..], k);
        assert Delete(h, k)[1..] == Delete(h[1..], k);
      }
    }
  }

  /** Dropping nil values and deleting a key commute. */
  lemma {:induction false} CompactDeleteAll(h: Entries, k: Key)
    ensures Delete(Compact(h), k) == Compact(Delete(h, k))
  {
    if h != [] {
      CompactDeleteAll(h[1..], k);
      if h[0].0 != k {
        assert Delete(h, k)[1..] == Delete(h[1..], k);
      }
      if NonNil(h[0]) {
        assert Compact(h)[1..] == Compact(h[1..]);
      }
    }
  }

  /** The `:basic_auth` entry `initialize` adds, if any. */
  ghost function AuthLayout(user: Value, pass: Value): Entries {
    if Truthy(user) && Truthy(pass)
    then [(BASIC_AUTH, Hash([(SymKey("username"), user), (SymKey("password"), pass)]))]
    else []
  }

  /** The proxy entries `initialize` adds, if any, in the order it adds them. */
  ghost function ProxyLayout(proxy: Option<Entries>): Entries {
    if proxy.None? then []
    else
      var p := proxy.value;
      [(PROXY_ADDR, Get(p, SymKey("addr"))), (PROXY_PORT, Get(p, SymKey("port")))]
      + (if Truthy(Get(p, SymKey("user"))) then [(PROXY_USER, Get(p, SymKey("user")))] else [])
      + (if Truthy(Get(p, SymKey("pass"))) then [(PROXY_PASS, Get(p, SymKey("pass")))] else [])
  }

  /** `:basic_auth` is present iff both credentials are truthy, and then holds them. */
  lemma BasicAuthOption(user: Value, pass: Value, proxy: Option<Entries>)
    ensures var o := AuthLayout(user, pass) + ProxyLayout(proxy);
      && (HasKey(o, BASIC_AUTH) <==> Truthy(user) && Truthy(pass))
      && (Truthy(user) && Truthy(pass) ==>
            Get(o, BASIC_AUTH) == Hash([(SymKey("username"), user), (SymKey("password"), pass)]))
  {
    var px := ProxyLayout(proxy);
    FindConcat(AuthLayout(user, pass), px, BASIC_AUTH);
    HasKeyMember(px, BASIC_AUTH);
  }

  /** The proxy address and port are present iff a proxy is given; its user
      and password iff they are truthy; each holds the proxy's value. */
  lemma ProxyOptions(user: Value, pass: Value, proxy: Option<Entries>)
    ensures var o := AuthLayout(user, pass) + ProxyLayout(proxy);
      && (HasKey(o, PROXY_ADDR) <==> proxy.Some?)
      && (HasKey(o, PROXY_PORT) <==> proxy.Some?)
      && (HasKey(o, PROXY_USER) <==> proxy.Some? && Truthy(Get(proxy.value, SymKey("user"))))
      && (HasKey(o, PROXY_PASS) <==> proxy.Some? && Truthy(Get(proxy.value, SymKey("pass"))))
      && (proxy.Some? ==> Get(o, PROXY_ADDR) == Get(proxy.value, SymKey("addr")))
      && (proxy.Some? ==> Get(o, PROXY_PORT) == Get(proxy.value, SymKey("port")))
      && (HasKey(o, PROXY_USER) ==> Get(o, PROXY_USER) == Get(proxy.value, SymKey("user")))
      && (HasKey(o, PROXY_PASS) ==> Get(o, PROXY_PASS) == Get(proxy.value, SymKey("pass")))
  {
    var auth, px := AuthLayout(user, pass), ProxyLayout(proxy);
    ProxyLayoutFind(proxy);
    AuthPrefix(user, pass, px, PROXY_ADDR);
    AuthPrefix(user, pass, px, PROXY_PORT);
    AuthPrefix(user, pass, px, PROXY_USER);
    AuthPrefix(user, pass, px, PROXY_PASS);
  }

  /** The basic-auth entry in front hides no other key. */
  lemma AuthPrefix(user: Value, pass: Value, px: Entries, k: Key)
    requires k != BASIC_AUTH
    ensures Find(AuthLayout(user, pass) + px, k) == Find(px, k)
  {
    FindConcat(AuthLayout(user, pass), px, k);
  }

  /** What the proxy entries alone hold. */
  lemma ProxyLayoutFind(proxy: Option<Entries>)
    ensures var px := ProxyLayout(proxy);
      && (HasKey(px, PROXY_ADDR) <==> proxy.Some?)
      && (HasKey(px, PROXY_PORT) <==> proxy.Some?)
      && (HasKey(px, PROXY_USER) <==> proxy.Some? && Truthy(Get(proxy.value, SymKey("user"))))
      && (HasKey(px, PROXY_PASS) <==> proxy.Some? && Truthy(Get(proxy.value, SymKey("pass"))))
      && (proxy.Some? ==> Find(px, PROXY_ADDR) == Some(Get(proxy.value, SymKey("addr"))))
      && (proxy.Some? ==> Find(px, PROXY_PORT) == Some(Get(proxy.value, SymKey("port"))))
      && (HasKey(px, PROXY_USER) ==> Find(px, PROXY_USER) == Some(Get(proxy.value, SymKey("user"))))
      && (HasKey(px, PROXY_PASS) ==> Find(px, PROXY_PASS) == Some(Get(proxy.value, SymKey("pass"))))
  {
    var px := ProxyLayout(proxy);
    HasKeyMember(px, PROXY_USER);
    HasKeyMember(px, PROXY_PASS);
    if proxy.Some? {
      var p := proxy.value;
      assert Unique(px);
      FindMember(px, PROXY_ADDR, Get(p, SymKey("addr")));
      FindMember(px, PROXY_PORT, Get(p, SymKey("port")));
      if Truthy(Get(p, SymKey("user"))) {
        FindMember(px, PROXY_USER, Get(p, SymKey("user")));
      }
      if Truthy(Get(p, SymKey("pass"))) {
        FindMember(px, PROXY_PASS, Get(p, SymKey("pass")));
      }
    }
  }

  /** The default options never hold a key twice, nor any key but these five. */
  lemma OptionsKeys(user: Value, pass: Value, proxy: Option<Entries>)
    ensures var o := AuthLayout(user, pass) + ProxyLayout(proxy);
      && Unique(o)
      && forall k :: HasKey(o, k) ==> k in [BASIC_AUTH, PROXY_ADDR, PROXY_PORT, PROXY_USER, PROXY_PASS]
  {
    var o := AuthLayout(user, pass) + ProxyLayout(proxy);
    forall k | HasKey(o, k)
      ensures k in [BASIC_AUTH, PROXY_ADDR, PROXY_PORT, PROXY_USER, PROXY_PASS]
    {
      HasKeyMember(o, k);
    }
  }

  /** `h[k] = v` for a key `h` does not hold yet: the entry goes at the end.
      `keys` lists every key of `h`. */
  method AddNewKey(h: Entries, ghost keys: seq<Key>, k: Key, v: Value) returns (h': Entries, ghost keys': seq<Key>)
    requires forall e :: e in h ==> e.0 in keys
    requires k !in keys
    ensures h' == h + [(k, v)] && keys' == keys + [k]
    ensures forall e :: e in h' ==> e.0 in keys'
  {
    StoreNew(h, k, v);
    h' := Store(h, k, v);
    keys' := keys + [k];
  }

  /** The `if proxy` block of `initialize`, on options that hold no proxy key yet. */
  method AddProxy(h: Entries, ghost keys: seq<Key>, p: Entries) returns (h': Entries, ghost keys': seq<Key>)
    requires forall e :: e in h ==> e.0 in keys
    requires keys == [] || keys == [BASIC_AUTH]
    ensures h' == h + ProxyLayout(Some(p))
    ensures forall e :: e in h' ==> e.0 in keys'
  {
    var addr, port, proxyUser, proxyPass := Get(p, SymKey("addr")), Get(p, SymKey("port")), Get(p, SymKey("user")), Get(p, SymKey("pass"));
    h', keys' := AddNewKey(h, keys, PROXY_ADDR, addr);
    h', keys' := AddNewKey(h', keys', PROXY_PORT, port);
    ghost var added := [(PROXY_ADDR, addr), (PROXY_PORT, port)];
    assert h' == h + added;
    if Truthy(proxyUser) {
      h', keys' := AddNewKey(h', keys', PROXY_USER, proxyUser);
      assert (h + added) + [(PROXY_USER, proxyUser)] == h + (added + [(PROXY_USER, proxyUser)]);
      added := added + [(PROXY_USER, proxyUser)];
    }
    assert h' == h + added;
    if Truthy(proxyPass) {
      h', keys' := AddNewKey(h', keys', PROXY_PASS, proxyPass);
      assert (h + added) + [(PROXY_PASS, proxyPass)] == h + (added + [(PROXY_PASS, proxyPass)]);
      added := added + [(PROXY_PASS, proxyPass)];
    }
    assert added == ProxyLayout(Some(p));
  }

  class Client {
    const host: string
    const defaultOptions: Entries

    /** `initialize(url, user, pass, proxy)`; `env` is the process environment. */
    constructor (url: Option<string>, user: Value, pass: Value, proxy: Option<Entries>, env: map<string, string>)
      ensures url.Some? ==> host == url.value
      ensures url.None? && HOST_VARIABLE in env ==> host == env[HOST_VARIABLE]
      ensures url.None? && HOST_VARIABLE !in env ==> host == DEFAULT_HOST
      ensures defaultOptions == AuthLayout(user, pass) + ProxyLayout(proxy)
    {
      host := if url.Some? then url.value else if HOST_VARIABLE in env then env[HOST_VARIABLE] else DEFAULT_HOST;
      var options: Entries := [];
      ghost var keys: seq<Key> := [];
      if Truthy(user) && Truthy(pass) {
        options, keys := AddNewKey(options, keys, BASIC_AUTH, Hash([(SymKey("username"), user), (SymKey("password"), pass)]));
      }
      ghost var auth := options;
      assert auth == AuthLayout(user, pass);
      if proxy.Some? {
        options, keys := AddProxy(options, keys, proxy.value);
      }
      assert options == auth + ProxyLayout(proxy);
      defaultOptions := options;
    }

    /** `wrap_request(method, url, options)` */
    function WrapRequest(verb: Verb, path: string, options: Entries, transport: Request -> Transport): (o: Outcome)
      ensures |o.calls| == 1
      ensures o.calls[0].request.verb == verb && o.calls[0].request.url == host + path
      ensures Unique(options) ==> forall k ::
        Find(o.calls[0].request.options, k) == if HasKey(options, k) then Find(options, k) else Find(defaultOptions, k)
      ensures o.calls[0].dispatched <==> verb == GET
      ensures verb == GET ==> o.reply == Some(Received(transport(o.calls[0].request)))
      ensures verb != GET ==> o.reply == None
    {
      var request := Request(verb, host + path, Merge(defaultOptions, options));
      MergeFindAll(defaultOptions, options);
      if verb == GET then Outcome([Call(request, true)], Some(Received(transport(request))))
      else Outcome([Call(request, false)], None)
    }

    /** `list` */
    function List(transport: Request -> Transport): (o: Outcome)
      ensures o.calls == [Call(Request(GET, host + "/v2/apps", defaultOptions), true)]
      ensures o.reply == Some(Received(transport(o.calls[0].request)))
    {
      WrapRequest(GET, "/v2/apps", [], transport)
    }

    /** `list_tasks(id)`: the whole path is escaped. */
    function ListTasks(id: Value, escChar: char -> string, transport: Request -> Transport): (o: Outcome)
      ensures o.calls == [Call(Request(GET, host + Escape("/v2/apps/" + ToS(id) + "/tasks", escChar), defaultOptions), true)]
      ensures o.reply == Some(Received(transport(o.calls[0].request)))
    {
      WrapRequest(GET, Escape("/v2/apps/" + ToS(id) + "/tasks", escChar), [], transport)
    }

    /** `search(id, cmd)` */
    function Search(id: Value, cmd: Value, escChar: char -> string, transport: Request -> Transport): (o: Outcome)
      ensures o.calls == [Call(Request(GET, host + ("/v2/apps?" + Query(SearchParams(id, cmd), escChar)), defaultOptions), true)]
      ensures o.calls[0].request.url == host + ("/v2/apps?" + Escape(
        if id.Nil? && cmd.Nil? then ""
        else if cmd.Nil? then "id=" + ToS(id)
        else if id.Nil? then "cmd=" + ToS(cmd)
        else "id=" + ToS(id) + "&cmd=" + ToS(cmd), escChar))
      ensures id.Nil? && cmd.Nil? ==> o.calls[0].request.url == host + "/v2/apps?"
      ensures o.reply == Some(Received(transport(o.calls[0].request)))
    {
      SearchQuery(id, cmd);
      WrapRequest(GET, "/v2/apps?" + Query(SearchParams(id, cmd), escChar), [], transport)
    }

    /** `endpoints(id)` */
    function Endpoints(id: Value, transport: Request -> Transport): (o: Outcome)
      ensures id.Nil? ==> o.calls == [Call(Request(GET, host + "/v2/tasks", defaultOptions), true)]
      ensures !id.Nil? ==> o.calls == [Call(Request(GET, host + ("/v2/apps/" + ToS(id) + "/tasks"), defaultOptions), true)]
      ensures o.reply == Some(Received(transport(o.calls[0].request)))
    {
      var url := if id.Nil? then "/v2/tasks" else "/v2/apps/" + ToS(id) + "/tasks";
      WrapRequest(GET, url, [], transport)
    }

    /** `kill(id)`: logged, not sent. */
    function Kill(id: Value, transport: Request -> Transport): (o: Outcome)
      ensures o.calls == [Call(Request(DELETE, host + ("/v2/apps/" + ToS(id)), defaultOptions), false)]
      ensures o.reply == None
    {
      WrapRequest(DELETE, "/v2/apps/" + ToS(id), [], transport)
    }

    /** `start(id, opts)`: the body is a copy of `opts` with `:id` set. */
    method Start(id: Value, opts: Entries, transport: Request -> Transport) returns (o: Outcome)
      ensures |o.calls| == 1 && !o.calls[0].dispatched && o.reply == None
      ensures o.calls[0].request.verb == POST && o.calls[0].request.url == host + "/v2/apps/"
      ensures forall k :: k != BODY ==> Find(o.calls[0].request.options, k) == Find(defaultOptions, k)
      ensures BodyOf(o.calls[0].request).Hash?
      ensures var body := BodyOf(o.calls[0].request).entries;
        && Find(body, SymKey("id")) == Some(id)
        && (forall k :: k != SymKey("id") ==> Find(body, k) == Find(opts, k))
        && Keys(body) == if HasKey(opts, SymKey("id")) then Keys(opts) else Keys(opts) + [SymKey("id")]
    {
      var body := opts;
      body := Store(body, SymKey("id"), id);
      StoreAll(opts, SymKey("id"), id);
      o := WrapRequest(POST, "/v2/apps/", [(BODY, Hash(body))], transport);
      forall k { FindSingleton(BODY, Hash(body), k); }
    }

    /** `scale(id, num_instances)`; `fetched` is the `app` of the GET's parsed response. */
    method Scale(id: Value, numInstances: Value, fetched: Entries, transport: Request -> Transport) returns (o: Outcome)
      ensures |o.calls| == 2 && o.reply == None
      ensures o.calls[0] == Call(Request(GET, host + ("/v2/apps/" + ToS(id)), defaultOptions), true)
      ensures o.calls[1].request.verb == PUT && o.calls[1].request.url == host + ("/v2/apps/" + ToS(id))
      ensures !o.calls[1].dispatched
      ensures forall k :: k != BODY ==> Find(o.calls[1].request.options, k) == Find(defaultOptions, k)
      ensures BodyOf(o.calls[1].request).Hash?
      ensures var body := BodyOf(o.calls[1].request).entries;
        && Find(body, INSTANCES) == Some(numInstances)
        && (forall k :: k != INSTANCES ==> Find(body, k) == if EditableKey(k) then Find(fetched, k) else None)
        && Keys(body) == if HasKey(fetched, INSTANCES) then Keys(EditableOnly(fetched))
                         else Keys(EditableOnly(fetched)) + [INSTANCES]
    {
      var get := WrapRequest(GET, "/v2/apps/" + ToS(id), [], transport);
      var app := fetched;
      app := EditableOnly(app);
      EditableFilter(fetched);
      StoreAll(app, INSTANCES, numInstances);
      app := Store(app, INSTANCES, numInstances);
      var put := WrapRequest(PUT, "/v2/apps/" + ToS(id), [(BODY, Hash(app))], transport);
      forall k { FindSingleton(BODY, Hash(app), k); }
      o := Outcome(get.calls + put.calls, put.reply);
    }

    /** `docker_deploy(id, image)`; `fetched` is the `app` of the GET's parsed response. */
    method DockerDeploy(id: Value, image: string, fetched: Entries, transport: Request -> Transport) returns (o: Outcome)
      ensures |o.calls| >= 1
      ensures o.calls[0] == Call(Request(GET, host + ("/v2/apps/" + ToS(id)), defaultOptions), true)
      ensures !DockerConfigured(EditableOnly(fetched)) ==>
        |o.calls| == 1 && o.reply == Some(Error(NO_DOCKER_IMAGE))
      ensures DockerConfigured(EditableOnly(fetched)) ==>
        && |o.calls| == 2 && o.reply == None
        && o.calls[1].request.verb == PUT && o.calls[1].request.url == host + ("/v2/apps/" + ToS(id))
        && !o.calls[1].dispatched
        && (forall k :: k != BODY ==> Find(o.calls[1].request.options, k) == Find(defaultOptions, k))
        && BodyOf(o.calls[1].request) == Hash(AssignImage(EditableOnly(fetched), image).value)
    {
      var get := WrapRequest(GET, "/v2/apps/" + ToS(id), [], transport);
      var app := fetched;
      app := EditableOnly(app);
      AssignImageSpec(app, image);
      match AssignImage(app, image)
      case None =>
        o := Outcome(get.calls, Some(Error(NO_DOCKER_IMAGE)));
      case Some(updated) =>
        app := updated;
        var put := WrapRequest(PUT, "/v2/apps/" + ToS(id), [(BODY, Hash(app))], transport);
        forall k { FindSingleton(BODY, Hash(app), k); }
        o := Outcome(get.calls + put.calls, put.reply);
    }

    /** `kill_tasks(appId, params)`: the caller's `params` is copied before `task_id` is deleted. */
    method KillTasks(appId: Value, params: Entries, escChar: char -> string, transport: Request -> Transport) returns (o: Outcome)
      ensures |o.calls| == 1 && !o.calls[0].dispatched && o.reply == None
      ensures o.calls[0].request.verb == DELETE && o.calls[0].request.options == defaultOptions
      ensures Get(params, TASK_ID).Nil? ==>
        o.calls[0].request.url == host + ("/v2/apps/" + ToS(appId) + "/tasks?" + Query(params, escChar))
      ensures !Get(params, TASK_ID).Nil? ==>
        o.calls[0].request.url == host + ("/v2/apps/" + ToS(appId) + "/tasks/" + ToS(Get(params, TASK_ID)) + "?"
                                          + Query(Delete(params, TASK_ID), escChar))
    {
      if Get(params, TASK_ID).Nil? {
        o := WrapRequest(DELETE, "/v2/apps/" + ToS(appId) + "/tasks?" + Query(params, escChar), [], transport);
      } else {
        var query := params;
        var taskId := Get(query, TASK_ID);
        query := Delete(query, TASK_ID);
        o := WrapRequest(DELETE, "/v2/apps/" + ToS(appId) + "/tasks/" + ToS(taskId) + "?" + Query(query, escChar), [], transport);
      }
    }
  }
}
