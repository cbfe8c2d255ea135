# Haile client model

A Dafny model of `Haile::Client` (lib/haile/client.rb), a Ruby client for
the Marathon REST API. The model covers how the client builds its requests:

- the host and the default options it is constructed with;
- the dispatcher `wrap_request`, which merges per-call options over the
  defaults, sends only GET requests and turns a raised error into an
  error response. The per-call options win on every key, the
  `:basic_auth` and `:http_proxy*` entries included (lib/haile/client.rb:117);
- the query string that `query_params` assembles;
- the paths of `list`, `list_tasks`, `search`, `endpoints`, `kill` and
  `kill_tasks`, and the body of `start`;
- the read-modify-write operations `scale` and `docker_deploy`. Each fetches
  the app, keeps only the editable attributes, changes one field and PUTs
  the whole app back.

The model follows the code as written. `wrap_request` sends a request only
when its verb is GET. For any other verb it logs the request and returns
`nil`, so `start`, `kill`, `kill_tasks` and the PUT of `scale` and
`docker_deploy` never reach the server. Each operation returns an
`Outcome`: the `wrap_request` calls it made, each marked as sent or only
logged, and its reply. `None` stands for Ruby's `nil`.

Files:

- `values.dfy` (module `RubyValues`): the Ruby objects the client handles,
  with truthiness, `to_s`, `inspect` and `String#[]=`.
- `hashes.dfy` (module `RubyHash`): an insertion-ordered Ruby Hash as a
  sequence of entries, with `[]`, `[]=`, `delete`, `merge` and `select`.
- `query.dfy` (module `QueryParams`): `query_params`, and a parser that
  reads a query string back.
- `client.dfy` (module `Haile`): the client itself.

## Model

| member | source | states |
|---|---|---|
| Haile.Client.constructor | lib/haile/client.rb:20-34 | The host is `url` if given, else `MARATHON_URL` from the environment, else `http://localhost:8080`. The default options are the basic-auth entry (only when user and pass are both truthy) followed by the proxy entries in the order `initialize` adds them |
| Haile.AddProxy | lib/haile/client.rb:28-33 | The `if proxy` block appends address and port, then user and password only when truthy, to options that hold no proxy key yet |
| Haile.AddNewKey | lib/haile/client.rb:25 | Assigning a key the options hash does not hold yet appends the entry at the end |
| Haile.BasicAuthOption | lib/haile/client.rb:24-26 | `:basic_auth` is a default option iff user and pass are both truthy, and it then maps `:username` and `:password` to them |
| Haile.ProxyOptions | lib/haile/client.rb:28-33 | The proxy address and port are default options iff a proxy is given; the proxy user and password iff they are truthy; each holds the proxy's value |
| Haile.OptionsKeys | lib/haile/client.rb:22-33 | The default options never repeat a key and hold no key but the five auth and proxy keys |
| Haile.Client.WrapRequest | lib/haile/client.rb:116-128 | Exactly one request to `host + url`. Its options read as the per-call options where those hold the key and as the defaults elsewhere. It is sent iff the verb is GET. A GET replies with the wrapped transport result, or an error carrying the message when the transport raised. Any other verb replies `nil` |
| RubyHash.MergeFind | lib/haile/client.rb:117 | In `a.merge(b)` the value from `b` wins on a shared key, and keys only in `a` keep their values |
| RubyHash.MergeShape | lib/haile/client.rb:117 | `a.merge(b)` keeps `a`'s keys at their positions and appends only keys of `b` |
| QueryParams.CompactContents | lib/haile/client.rb:131 | The compacted hash holds exactly the entries whose value is not nil, in their original order |
| QueryParams.QueryRoundTrip | lib/haile/client.rb:130-133 | Reading back the joined string gives every non-nil entry as `key=value`, in insertion order, and nothing else (for keys without `&` or `=` and values without `&`) |
| QueryParams.QueryEmpty | lib/haile/client.rb:130-133 | The joined string is empty iff every value is nil, and then the escaped query is empty too |
| QueryParams.EscapeAppend | lib/haile/client.rb:132 | Escaping works per character, so it distributes over concatenation |
| QueryParams.EscapeSafe | lib/haile/client.rb:132 | A string of characters that escaping leaves alone comes back unchanged |
| Haile.Client.List | lib/haile/client.rb:36-38 | One GET of `host/v2/apps` with the default options, sent, replying with the transport's result |
| Haile.Client.ListTasks | lib/haile/client.rb:40-42 | One GET of `/v2/apps/{id}/tasks`, the whole path escaped, with the default options |
| Haile.SearchQuery | lib/haile/client.rb:44-49 | The query `search` sends names `id` and `cmd` only when they are not nil, in that order, joined by `&` |
| Haile.Client.Search | lib/haile/client.rb:44-50 | One GET of `/v2/apps?` followed by the escaped query; `search()` requests exactly `/v2/apps?` |
| Haile.Client.Endpoints | lib/haile/client.rb:52-60 | `endpoints(nil)` GETs `/v2/tasks`; `endpoints(id)` GETs `/v2/apps/{id}/tasks` |
| Haile.Client.Start | lib/haile/client.rb:62-66 | A POST of `/v2/apps/`, logged and not sent, replying `nil`. Its body is `opts` with `:id` set to `id` and every other key unchanged; `:id` is appended if `opts` lacked it. Every other option reads as in the defaults |
| Haile.EditableFilter | lib/haile/client.rb:74 | After the editable-attribute filter (line 74 here, line 92 in `scale`, with the list at lines 16-18), the app's keys are the original keys named in `EDITABLE_APP_ATTRIBUTES`, with their values and relative order unchanged |
| Haile.Client.Scale | lib/haile/client.rb:87-96 | A sent GET of `/v2/apps/{id}`, then a logged PUT of the same path replying `nil`. The PUT body holds `instances == n`, and every other key reads as in the filtered app. Its keys are the filtered app's keys, with `instances` appended when it was absent. Every option other than `:body` reads as in the defaults |
| Haile.AssignImageSpec | lib/haile/client.rb:76-83 | The image assignment succeeds iff `container` is a Hash whose `docker` is a Hash, or a String containing `"image"`. It then changes only `container.docker.image`: every other key at every level reads as before and keeps its position |
| Haile.Client.DockerDeploy | lib/haile/client.rb:68-85 | A sent GET of `/v2/apps/{id}`. If the filtered app has no assignable docker image, the reply is the fixed "App doesn't have a docker image configured…" error and nothing more is requested. Otherwise a logged PUT of the same path follows, whose body is the filtered app with the image assigned and whose other options read as in the defaults |
| Haile.Client.Kill | lib/haile/client.rb:98-100 | A DELETE of `/v2/apps/{id}` with the default options, logged and not sent, replying `nil` |
| Haile.Client.KillTasks | lib/haile/client.rb:102-112 | With a nil `task_id`, a DELETE of `/v2/apps/{appId}/tasks?` followed by the query of `params`. Otherwise a DELETE of `/v2/apps/{appId}/tasks/{task_id}?` followed by the query of `params` without `task_id`. The caller's `params` is a value and stays as it was |
| Haile.NilTaskIdNotSent | lib/haile/client.rb:103-104 | When `task_id` is nil it never appears in the query, and deleting it would not change the query |
| RubyHash.StoreAll | lib/haile/client.rb:94 | After `h[k] = v`, `k` reads `v` and every other key reads as before. The keys are unchanged if `k` was present, else `k` is appended |
| RubyHash.StoreUnique | lib/haile/client.rb:94 | `h[k] = v` never makes a key repeat |
| RubyHash.DeleteFind | lib/haile/client.rb:109 | After `h.delete(k)`, `k` is absent and every other key reads as before |
| RubyHash.DeleteShape | lib/haile/client.rb:109 | `h.delete(k)` removes exactly the entry holding `k`, if any, and keeps the rest in order |
| RubyHash.SelectContents | lib/haile/client.rb:74 | `select` keeps exactly the entries its block accepts, in their original order |
| RubyHash.SelectUnique | lib/haile/client.rb:92 | `select` never makes a key repeat |

## Left out

- The HTTParty class configuration at lib/haile/client.rb:5-14 (headers, the JSON query normaliser, redirects, timeout) is not modelled. It belongs to a foreign library. The transport is a function parameter from the request to what it returned or the message of what it raised.
- `Haile::Response` is not part of this model. `Response(raw)` and `Error(message)` stand for `Response.new` and `Response.error`.
- Haile.Client.Scale: the app that the GET fetches is an input (`fetched`), not read from the reply. What `parsed_response['app']` gives for an error reply is unknown. A fetched app that is not a Hash is not modelled. For `nil`, a String, a number or a boolean, `select!` raises a NoMethodError. For an Array, `select!` succeeds and `app['instances'] = num_instances` raises a TypeError at lib/haile/client.rb:94. Neither error is rescued, so both reach the caller.
- Haile.Client.DockerDeploy: the fetched app is an input, as for `scale`, and a fetched app that is not a Hash is not modelled. For `nil`, a String, a number or a boolean, `select!` raises a NoMethodError that reaches the caller. For an Array, `app['container']` raises a TypeError inside the `begin` at lib/haile/client.rb:77, and the `rescue` turns it into the fixed error.
- Haile.Client.DockerDeploy: `image` is a String. A non-String image assigned into a String `docker` makes Ruby raise a TypeError, which the `rescue` turns into the fixed error; that case is not modelled.
- Haile.Client.KillTasks: `params` is a Hash. `kill_tasks(id, nil)` makes Ruby raise a NoMethodError at lib/haile/client.rb:103, outside `wrap_request`'s `rescue`; that case is not modelled.
- `URI.escape`'s choice of unsafe characters is not modelled. Escaping is a per-character replacement `escChar`, passed as a parameter.
- The `ENV` lookup is a `map` parameter. The `url` argument is `Option<string>`, so a `false` url is not modelled.
- The `proxy` and `opts` arguments and the fetched app are Hashes. Other objects passed there, which Ruby would reject or index differently, are not modelled.
- Hash keys are Symbols or Strings only. Floats and other JSON values are not modelled. `inspect` does not escape characters inside strings.
- The `puts` logging at lib/haile/client.rb:119 and 123 is a side effect with no bearing on the result. Only whether a request was sent is recorded.
- Errors raised inside `wrap_request` other than by the transport cannot occur in the model. Merging and string building are total here.
- Subscriptions and the command-line tool are not part of this model.
