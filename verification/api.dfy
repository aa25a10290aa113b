/** The endpoint registry and request dispatch of the client (`api.API`,
    `api.Endpoint` and the three registered endpoints). The HTTP transport
    and the `vtypes` coercions are parameters: a `Transport` answers a
    request with decoded JSON or a failure, and a `Codec` turns keyword
    arguments into strings, a response value into typed values, and a
    string map into a query string. */
module Api {

  import opened Results
  import Entities
  import Validators
  import Text

  type Value = Entities.Value

  /** One entry `(response_key, init_kwarg): validator` of `response_args`. */
  datatype ResponseArg = ResponseArg(responseKey: string, initKwarg: string, validator: Validators.Validator)

  /** An `Endpoint` subclass's declarations. `definesRecord` is whether the
      class has a `record` method of its own. */
  datatype EndpointClass = EndpointClass(
    service: string,
    endpoint: string,
    model: Option<Entities.KeySpec>,
    callableAction: string,
    isPost: bool,
    args: Validators.Validator,
    responseArgs: seq<ResponseArg>,
    definesRecord: bool)

  /** `ProgramGuideEndpoint`. */
  const ProgramGuideEndpoint := EndpointClass(
    "Guide", "GetProgramGuide", Some(Entities.GuideSpec), "get", false,
    [Validators.Field("StartTime", Validators.VDateTime, true),
     Validators.Field("EndTime", Validators.VDateTime, true)],
    [ResponseArg("ProgramGuide", "_guide", Validators.GuideValidator)],
    false)

  /** `GetRecordSchedule`; the defaults and `settable=False` of its last
      three fields belong to the coercion library. */
  const GetRecordScheduleEndpoint := EndpointClass(
    "Dvr", "GetRecordSchedule", Some(Entities.RecRuleSpec), "get", false,
    [Validators.Field("StartTime", Validators.VDateTime, true),
     Validators.Field("ChanId", Validators.VInt, true),
     Validators.Field("RecordId", Validators.VInt, true),
     Validators.Field("Template", Validators.VString, true),
     Validators.Field("MakeOverride", Validators.VInt, true)],
    [ResponseArg("RecRule", "_recrule", Validators.RecRuleValidator())],
    false)

  /** `AddRecordSchedule`: a write, called through `record`. */
  const AddRecordScheduleEndpoint := EndpointClass(
    "Dvr", "AddRecordSchedule", None, "record", true,
    Validators.AddRecordScheduleArgs(), [], true)

  /** `API.endpoints`: service name to endpoint name to class. */
  type Registry = map<string, map<string, EndpointClass>>

  /** `API.register(endpoint_cls)`: files the class under its service and
      endpoint name, creating the service's map when absent. */
  function Register(reg: Registry, cls: EndpointClass): (r: Registry)
    ensures r.Keys == reg.Keys + {cls.service}
    ensures cls.endpoint in r[cls.service] && r[cls.service][cls.endpoint] == cls
    ensures r[cls.service].Keys ==
      (if cls.service in reg then reg[cls.service].Keys else {}) + {cls.endpoint}
    ensures forall s, e :: s in reg && e in reg[s] && (s != cls.service || e != cls.endpoint) ==>
      s in r && e in r[s] && r[s][e] == reg[s][e]
  {
    var inner := if cls.service in reg then reg[cls.service] else map[];
    reg[cls.service := inner[cls.endpoint := cls]]
  }

  /** The registry once the module has been loaded: the three decorated
      classes, registered in source order. */
  function Registered(): Registry
  {
    Register(Register(Register(map[], ProgramGuideEndpoint), GetRecordScheduleEndpoint), AddRecordScheduleEndpoint)
  }

  /** `api.<service>`: `API.__getattr__`. */
  function ServiceOf(reg: Registry, service: string): Result<map<string, EndpointClass>>
  {
    if service in reg then Success(reg[service]) else Failure(UnknownService(service))
  }

  /** `api.<service>.<endpoint>`: `Service.__getattr__` after
      `API.__getattr__`. */
  function EndpointOf(reg: Registry, service: string, endpoint: string): Result<EndpointClass>
  {
    var endpoints :- ServiceOf(reg, service);
    if endpoint in endpoints then Success(endpoints[endpoint]) else Failure(UnknownEndpoint(endpoint))
  }

  /** A lookup fails with an unknown service exactly when the service is not
      registered, with an unknown endpoint exactly when the service is but the
      endpoint is not under it, and otherwise finds the registered class. */
  lemma EndpointOfSpec(reg: Registry, service: string, endpoint: string)
    ensures EndpointOf(reg, service, endpoint) == Failure(UnknownService(service)) <==> service !in reg
    ensures EndpointOf(reg, service, endpoint) == Failure(UnknownEndpoint(endpoint)) <==>
      service in reg && endpoint !in reg[service]
    ensures EndpointOf(reg, service, endpoint).Success? <==> service in reg && endpoint in reg[service]
    ensures EndpointOf(reg, service, endpoint).Success? ==>
      EndpointOf(reg, service, endpoint).value == reg[service][endpoint]
  {
  }

  /** Looking up after a registration finds the registered class under its
      own names and what was found before under any other names, except that
      a new service makes its other endpoint names unknown endpoints rather
      than an unknown service. */
  lemma EndpointOfRegister(reg: Registry, cls: EndpointClass, service: string, endpoint: string)
    ensures EndpointOf(Register(reg, cls), service, endpoint) ==
      if service == cls.service && endpoint == cls.endpoint then Success(cls)
      else if service == cls.service && cls.service !in reg then Failure(UnknownEndpoint(endpoint))
      else EndpointOf(reg, service, endpoint)
  {
  }

  /** Registering the same names again replaces the earlier class. */
  lemma RegisterOverwrites(reg: Registry, earlier: EndpointClass, cls: EndpointClass)
    requires earlier.service == cls.service && earlier.endpoint == cls.endpoint
    ensures Register(Register(reg, earlier), cls) == Register(reg, cls)
  {
    var inner := if cls.service in reg then reg[cls.service] else map[];
    assert Register(reg, earlier)[cls.service] == inner[cls.endpoint := earlier];
    assert inner[cls.endpoint := earlier][cls.endpoint := cls] == inner[cls.endpoint := cls];
  }

  /** Three classes registered in turn, the first under one service and
      the other two under another, are found under their names. */
  lemma RegisterThree(a: EndpointClass, b: EndpointClass, c: EndpointClass, service: string, endpoint: string)
    requires a.service != b.service && b.service == c.service && b.endpoint != c.endpoint
    ensures var reg := Register(Register(Register(map[], a), b), c);
      && reg.Keys == {a.service, b.service}
      && EndpointOf(reg, a.service, a.endpoint) == Success(a)
      && EndpointOf(reg, b.service, b.endpoint) == Success(b)
      && EndpointOf(reg, c.service, c.endpoint) == Success(c)
      && (service != a.service && service != b.service ==>
            EndpointOf(reg, service, endpoint) == Failure(UnknownService(service)))
  {
    var r1 := Register(map[], a);
    var r2 := Register(r1, b);
    EndpointOfRegister(map[], a, a.service, a.endpoint);
    EndpointOfRegister(r1, b, a.service, a.endpoint);
    EndpointOfRegister(r2, c, a.service, a.endpoint);
    EndpointOfRegister(r1, b, b.service, b.endpoint);
    EndpointOfRegister(r2, c, b.service, b.endpoint);
    EndpointOfRegister(r2, c, c.service, c.endpoint);
  }

  /** The declared names of the three registered classes. */
  lemma RegisteredNames()
    ensures ProgramGuideEndpoint.service == "Guide" && ProgramGuideEndpoint.endpoint == "GetProgramGuide"
    ensures GetRecordScheduleEndpoint.service == "Dvr" && GetRecordScheduleEndpoint.endpoint == "GetRecordSchedule"
    ensures AddRecordScheduleEndpoint.service == "Dvr" && AddRecordScheduleEndpoint.endpoint == "AddRecordSchedule"
  {
  }

  /** The loaded registry finds each registered endpoint under its names. */
  lemma RegisteredEndpoints()
    ensures EndpointOf(Registered(), "Guide", "GetProgramGuide") == Success(ProgramGuideEndpoint)
    ensures EndpointOf(Registered(), "Dvr", "GetRecordSchedule") == Success(GetRecordScheduleEndpoint)
    ensures EndpointOf(Registered(), "Dvr", "AddRecordSchedule") == Success(AddRecordScheduleEndpoint)
  {
    RegisteredNames();
    RegisterThree(ProgramGuideEndpoint, GetRecordScheduleEndpoint, AddRecordScheduleEndpoint, "Guide", "");
  }

  /** The loaded registry has the guide and the DVR services and no other. */
  lemma RegisteredServices(service: string, endpoint: string)
    ensures Registered().Keys == {"Guide", "Dvr"}
    ensures service != "Guide" && service != "Dvr" ==>
      EndpointOf(Registered(), service, endpoint) == Failure(UnknownService(service))
  {
    RegisteredNames();
    RegisterThree(ProgramGuideEndpoint, GetRecordScheduleEndpoint, AddRecordScheduleEndpoint, service, endpoint);
  }

  /** What an attribute of an endpoint instance is bound to: the `wrapped`
      closure `__getattr__` makes for `get` or `post`, the class's own
      `record` method, or another attribute the instance or its class
      defines, left opaque. */
  datatype Bound = Wrapped(attr: string) | RecordMethod | Member(name: string)

  /** The names an endpoint instance finds before `Endpoint.__getattr__` is
      consulted: the class attributes and methods `Endpoint` declares (which
      its subclasses only override) and the instance attribute `api`. */
  const EndpointMembers: set<string> := {
    "model", "service", "endpoint", "callable_action", "is_post", "args", "response_args",
    "api", "_get_args", "_request", "__init__", "__getattr__", "__call__"
  }

  /** Attribute access on an endpoint instance: its class's own `record`
      method or another attribute it defines, or else `Endpoint.__getattr__`. */
  function Attribute(cls: EndpointClass, attr: string): Result<Bound>
  {
    if attr == "record" && cls.definesRecord then Success(RecordMethod)
    else if attr in EndpointMembers then Success(Member(attr))
    else if (attr == "get" && !cls.isPost) || (attr == "post" && cls.isPost) then Success(Wrapped(attr))
    else Failure(UnsupportedOperation(attr))
  }

  /** `get` exists exactly on reads and `post` exactly on writes; the names
      an endpoint defines itself are found as they are; every other attribute
      is unknown. */
  lemma AttributeGating(cls: EndpointClass, attr: string)
    ensures Attribute(cls, "get").Success? <==> !cls.isPost
    ensures Attribute(cls, "post").Success? <==> cls.isPost
    ensures Attribute(cls, "record").Success? <==> cls.definesRecord
    ensures attr in EndpointMembers ==> Attribute(cls, attr) == Success(Member(attr))
    ensures attr != "get" && attr != "post" && attr !in EndpointMembers && (attr != "record" || !cls.definesRecord) ==>
      Attribute(cls, attr) == Failure(UnsupportedOperation(attr))
  {
  }

  /** What calling an endpoint instance runs: a request with the keyword
      arguments, or `record` on a program. */
  datatype Invocation = RequestWith(kwargs: map<string, Value>) | RecordProgram(program: Value)

  /** `Endpoint.__call__(*args, **kwargs)`: the attribute named by
      `callable_action`, called with the arguments. `wrapped` takes keywords
      only; `record` takes exactly one argument, `program`. Calling any other
      member the class defines is not modelled and reports `BadCallArgs`. */
  function Dispatch(cls: EndpointClass, args: seq<Value>, kwargs: map<string, Value>): Result<Invocation>
  {
    var fn :- Attribute(cls, cls.callableAction);
    match fn
    case Wrapped(_) =>
      if |args| > 0 then Failure(BadCallArgs) else Success(RequestWith(kwargs))
    case RecordMethod =>
      if |args| == 1 && |kwargs| == 0 then Success(RecordProgram(args[0]))
      else if |args| == 0 && kwargs.Keys == {"program"} then Success(RecordProgram(kwargs["program"]))
      else Failure(BadCallArgs)
    case Member(_) => Failure(BadCallArgs)
  }

  /** Calling a default read endpoint requests with the keywords given; a
      write left with the default action has no `get` to call; an endpoint
      whose action is its own `record` runs it on the one program given,
      positionally or as `program=`. */
  lemma DispatchActions(cls: EndpointClass, kwargs: map<string, Value>, program: Value)
    ensures cls.callableAction == "get" && !cls.isPost ==>
      Dispatch(cls, [], kwargs) == Success(RequestWith(kwargs))
    ensures cls.callableAction == "get" && cls.isPost ==>
      Dispatch(cls, [], kwargs) == Failure(UnsupportedOperation("get"))
    ensures cls.callableAction == "record" && cls.definesRecord ==>
      && Dispatch(cls, [program], map[]) == Success(RecordProgram(program))
      && Dispatch(cls, [], map["program" := program]) == Success(RecordProgram(program))
  {
    assert map["program" := program].Keys == {"program"};
  }

  /** The two reads request through `get`; `AddRecordSchedule` is a write
      whose action is its own `record`. */
  lemma RegisteredActions()
    ensures ProgramGuideEndpoint.callableAction == "get" && !ProgramGuideEndpoint.isPost
    ensures GetRecordScheduleEndpoint.callableAction == "get" && !GetRecordScheduleEndpoint.isPost
    ensures AddRecordScheduleEndpoint.callableAction == "record" && AddRecordScheduleEndpoint.definesRecord &&
      AddRecordScheduleEndpoint.isPost
  {
  }

  /** Positional arguments to a request-making call are refused. */
  lemma DispatchRejectsPositional(cls: EndpointClass, args: seq<Value>, kwargs: map<string, Value>)
    requires |args| > 0 && Attribute(cls, cls.callableAction) == Success(Wrapped(cls.callableAction))
    ensures Dispatch(cls, args, kwargs) == Failure(BadCallArgs)
  {
  }

  datatype Method = Get | Post

  /** A request as handed to the transport: the URL, the headers and, for a
      POST, the form body. */
  datatype HttpRequest = HttpRequest(verb: Method, url: string, headers: map<string, string>, body: map<string, string>)

  /** `dict(Accept='application/json')`, the headers of every request. */
  const AcceptJson: map<string, string> := map["Accept" := "application/json"]

  /** The URL `API._request` builds: `{url}/{service}/{endpoint}/?{query}`
      for a read, `{url}/{service}/{endpoint}` for a write (`query` absent). */
  function RequestUrl(base: string, service: string, endpoint: string, query: Option<string>): string
  {
    base + "/" + service + "/" + endpoint + (if query.Some? then "/?" + query.value else "")
  }

  /** Split at `/`, a request URL gives back the base URL's pieces, the
      service, the endpoint and, for a read, `?` and the query, provided
      none of the last three contains a `/`. */
  lemma RequestUrlParts(base: string, service: string, endpoint: string, query: Option<string>)
    requires '/' !in service && '/' !in endpoint
    requires query.Some? ==> '/' !in query.value
    ensures Text.Split(RequestUrl(base, service, endpoint, query), '/') ==
      Text.Split(base, '/') + [service, endpoint] + (if query.Some? then ["?" + query.value] else [])
  {
    var rest := endpoint + (if query.Some? then "/?" + query.value else "");
    assert RequestUrl(base, service, endpoint, query) == base + "/" + service + "/" + rest;
    SplitAfterService(base, service, rest);
    if query.Some? {
      var q := "?" + query.value;
      assert rest == endpoint + ['/'] + q;
      Text.SplitAfterPiece(endpoint, '/', q);
      Text.SplitNoSeparator(q, '/');
      assert Text.Split(rest, '/') == [endpoint, q];
    } else {
      assert rest == endpoint;
      Text.SplitNoSeparator(endpoint, '/');
    }
    assert [service] + Text.Split(rest, '/') ==
      [service, endpoint] + (if query.Some? then ["?" + query.value] else []);
  }

  /** Split at `/`, `{base}/{service}/{rest}` gives the base's pieces, the
      service, then the pieces of `rest`. */
  lemma SplitAfterService(base: string, service: string, rest: string)
    requires '/' !in service
    ensures Text.Split(base + "/" + service + "/" + rest, '/') ==
      Text.Split(base, '/') + [service] + Text.Split(rest, '/')
  {
    assert base + "/" + service + "/" + rest == base + ['/'] + (service + ['/'] + rest);
    Text.SplitConcat(base, '/', service + ['/'] + rest);
    Text.SplitAfterPiece(service, '/', rest);
  }

  /** The coercion functions of the `vtypes` library and `urlencode`. */
  datatype Codec = Codec(
    toStrings: (Validators.Validator, map<string, Value>) -> Result<map<string, string>>,
    toTypes: (Validators.Validator, Value) -> Result<Value>,
    urlencode: map<string, string> -> string)

  /** `requests.get`/`requests.post` followed by `raise_for_status()` and
      `json()`. */
  type Transport = HttpRequest -> Result<Value>

  /** The request `API._request` sends for already stringified arguments:
      a read puts them in the query, a write in the body. */
  function BuildRequest(base: string, cls: EndpointClass, args: map<string, string>, codec: Codec): HttpRequest
  {
    if cls.isPost then HttpRequest(Post, RequestUrl(base, cls.service, cls.endpoint, None), AcceptJson, args)
    else HttpRequest(Get, RequestUrl(base, cls.service, cls.endpoint, Some(codec.urlencode(args))), AcceptJson, map[])
  }

  /** The constructor keywords of a read: for each entry in order,
      `kwargs[init_kwarg] = validator.to_types(response[response_key])`. */
  function ResponseKwargs(entries: seq<ResponseArg>, response: Value, toTypes: (Validators.Validator, Value) -> Result<Value>): (r: Result<map<string, Value>>)
    ensures r.Success? ==> r.value.Keys == set i | 0 <= i < |entries| :: entries[i].initKwarg
  {
    if |entries| == 0 then Success(map[])
    else
      var front := entries[..|entries| - 1];
      var last := entries[|entries| - 1];
      var kwargs :- ResponseKwargs(front, response, toTypes);
      var raw :- Entities.Subscript(response, last.responseKey);
      var v :- toTypes(last.validator, raw);
      var all := set i | 0 <= i < |entries| :: entries[i].initKwarg;
      assert all == (set i | 0 <= i < |front| :: front[i].initKwarg) + {last.initKwarg} by {
        forall k | k in all
          ensures k in (set i | 0 <= i < |front| :: front[i].initKwarg) + {last.initKwarg}
        {
          var i :| 0 <= i < |entries| && entries[i].initKwarg == k;
          if i < |front| {
            assert front[i] == entries[i];
          }
        }
      }
      Success(kwargs[last.initKwarg := v])
  }

  /** Assembled keywords mean every response key was present and coerced,
      and each keyword not set again later holds its entry's coerced value. */
  lemma {:induction false} ResponseKwargsSpec(entries: seq<ResponseArg>, response: Value, toTypes: (Validators.Validator, Value) -> Result<Value>, i: nat)
    requires i < |entries|
    requires forall j :: i < j < |entries| ==> entries[j].initKwarg != entries[i].initKwarg
    requires ResponseKwargs(entries, response, toTypes).Success?
    ensures Entities.Subscript(response, entries[i].responseKey).Success?
    ensures var raw := Entities.Subscript(response, entries[i].responseKey).value;
      toTypes(entries[i].validator, raw).Success? &&
      ResponseKwargs(entries, response, toTypes).value[entries[i].initKwarg] == toTypes(entries[i].validator, raw).value
  {
    var front := entries[..|entries| - 1];
    if i < |front| {
      assert forall j :: i < j < |front| ==> front[j] == entries[j];
      ResponseKwargsSpec(front, response, toTypes, i);
      assert front[i] == entries[i];
    }
  }

  /** A key missing from the response, or a value its validator rejects,
      fails the whole read. */
  lemma {:induction false} ResponseKwargsMissing(entries: seq<ResponseArg>, response: Value, toTypes: (Validators.Validator, Value) -> Result<Value>, i: nat)
    requires i < |entries|
    requires Entities.Subscript(response, entries[i].responseKey).Failure? ||
      toTypes(entries[i].validator, Entities.Subscript(response, entries[i].responseKey).value).Failure?
    ensures ResponseKwargs(entries, response, toTypes).Failure?
  {
    var front := entries[..|entries| - 1];
    if i < |front| {
      assert front[i] == entries[i];
      ResponseKwargsMissing(front, response, toTypes, i);
    }
  }

  /** When every response key is present and coerces, the keywords are
      assembled. */
  lemma {:induction false} ResponseKwargsSucceeds(entries: seq<ResponseArg>, response: Value, toTypes: (Validators.Validator, Value) -> Result<Value>)
    requires forall i :: 0 <= i < |entries| ==>
      Entities.Subscript(response, entries[i].responseKey).Success? &&
      toTypes(entries[i].validator, Entities.Subscript(response, entries[i].responseKey).value).Success?
    ensures ResponseKwargs(entries, response, toTypes).Success?
  {
    if |entries| > 0 {
      var front := entries[..|entries| - 1];
      assert forall i :: 0 <= i < |front| ==> front[i] == entries[i];
      ResponseKwargsSucceeds(front, response, toTypes);
    }
  }

  /** `Endpoint._request(args)` through `API._request`: the keywords are
      stringified and sent; a write returns nothing, a read builds the model
      from the response keywords. */
  function Request(base: string, cls: EndpointClass, kwargs: map<string, Value>, codec: Codec, transport: Transport): Result<Option<Entities.Entity>>
  {
    var args :- codec.toStrings(cls.args, kwargs);
    var response :- transport(BuildRequest(base, cls, args, codec));
    if cls.isPost then Success(None)
    else
      var init :- ResponseKwargs(cls.responseArgs, response, codec.toTypes);
      var model :- if cls.model.Some? then Success(cls.model.value) else Failure(NoModel);
      var e :- Entities.Construct(model, [], init);
      Success(Some(e))
  }

  /** A write that goes through returns nothing, having posted the
      stringified keywords to `{url}/{service}/{endpoint}`; a read that goes
      through returns the declared model holding exactly the response
      keywords, fetched from the query URL. */
  lemma RequestOutcome(base: string, cls: EndpointClass, kwargs: map<string, Value>, codec: Codec, transport: Transport)
    requires Request(base, cls, kwargs, codec, transport).Success?
    ensures codec.toStrings(cls.args, kwargs).Success?
    ensures var args := codec.toStrings(cls.args, kwargs).value;
      var req := BuildRequest(base, cls, args, codec);
      transport(req).Success? &&
      (cls.isPost ==>
        req == HttpRequest(Post, base + "/" + cls.service + "/" + cls.endpoint, AcceptJson, args) &&
        Request(base, cls, kwargs, codec, transport) == Success(None)) &&
      (!cls.isPost ==>
        req.verb == Get && req.headers == AcceptJson && req.body == map[] &&
        ResponseKwargs(cls.responseArgs, transport(req).value, codec.toTypes).Success? &&
        cls.model.Some? &&
        Request(base, cls, kwargs, codec, transport) ==
          Success(Some(Entities.Entity(cls.model.value, ResponseKwargs(cls.responseArgs, transport(req).value, codec.toTypes).value))))
  {
    var args := codec.toStrings(cls.args, kwargs).value;
    var req := BuildRequest(base, cls, args, codec);
    if !cls.isPost {
      var init := ResponseKwargs(cls.responseArgs, transport(req).value, codec.toTypes).value;
      Entities.ConstructShape(cls.model.value, [], init);
      assert Entities.Zip(Entities.GetAttrKeys(cls.model.value).value, []) == map[];
      assert map[] + init == init;
    }
  }

  /** The guide read's one response entry gives the `_guide` keyword. */
  lemma ProgramGuideKwargs(fields: map<string, Value>, toTypes: (Validators.Validator, Value) -> Result<Value>)
    requires "ProgramGuide" in fields && toTypes(Validators.GuideValidator, fields["ProgramGuide"]).Success?
    ensures ResponseKwargs(ProgramGuideEndpoint.responseArgs, Entities.Dict(fields), toTypes) ==
      Success(map["_guide" := toTypes(Validators.GuideValidator, fields["ProgramGuide"]).value])
  {
    var v := toTypes(Validators.GuideValidator, fields["ProgramGuide"]).value;
    var entries := ProgramGuideEndpoint.responseArgs;
    assert entries[..0] == [];
    assert map[][entries[0].initKwarg := v] == map["_guide" := v];
  }

  /** Reading the program guide yields a `ProgramGuide` whose `_guide` is
      the coerced `ProgramGuide` member of the response. */
  lemma ProgramGuideRead(base: string, kwargs: map<string, Value>, codec: Codec, transport: Transport, fields: map<string, Value>)
    requires codec.toStrings(ProgramGuideEndpoint.args, kwargs).Success?
    requires var args := codec.toStrings(ProgramGuideEndpoint.args, kwargs).value;
      transport(BuildRequest(base, ProgramGuideEndpoint, args, codec)) == Success(Entities.Dict(fields))
    requires "ProgramGuide" in fields && codec.toTypes(Validators.GuideValidator, fields["ProgramGuide"]).Success?
    ensures Request(base, ProgramGuideEndpoint, kwargs, codec, transport) ==
      Success(Some(Entities.NewGuide(codec.toTypes(Validators.GuideValidator, fields["ProgramGuide"]).value)))
  {
    ProgramGuideKwargs(fields, codec.toTypes);
    Entities.NewGuideConstruct(codec.toTypes(Validators.GuideValidator, fields["ProgramGuide"]).value);
  }

  /** The keys `record` deletes, in deletion order. */
  const RecordRemoveKeys: seq<string> :=
    ["SubTitle", "LastRecorded", "NextRecording", "AverageDelay", "CallSign", "Id", "LastDeleted"]

  /** `for k in keys: del m[k]`: fails at the first key no longer present. */
  function DeleteAll(m: map<string, Value>, keys: seq<string>): (r: Result<map<string, Value>>)
  {
    if |keys| == 0 then Success(m)
    else if keys[0] !in m then Failure(KeyNotFound(keys[0]))
    else DeleteAll(m - {keys[0]}, keys[1..])
  }

  /** Deleting succeeds exactly when every key is present and no key
      repeats. */
  lemma {:induction false} DeleteAllSucceeds(m: map<string, Value>, keys: seq<string>)
    requires forall i, j :: 0 <= i < j < |keys| ==> keys[i] != keys[j]
    ensures DeleteAll(m, keys).Success? <==> forall i :: 0 <= i < |keys| ==> keys[i] in m
  {
    if |keys| > 0 && keys[0] in m {
      var rest := keys[1..];
      var m' := m - {keys[0]};
      DeleteAllSucceeds(m', rest);
      if forall i :: 0 <= i < |keys| ==> keys[i] in m {
        forall i | 0 <= i < |rest|
          ensures rest[i] in m'
        {
          assert rest[i] == keys[i + 1];
        }
      }
      if forall i :: 0 <= i < |rest| ==> rest[i] in m' {
        forall i | 0 <= i < |keys|
          ensures keys[i] in m
        {
          if i > 0 {
            assert rest[i - 1] == keys[i];
          }
        }
      }
    }
  }

  /** A successful deletion leaves exactly the other entries, unchanged. */
  lemma {:induction false} DeleteAllResult(m: map<string, Value>, keys: seq<string>)
    requires DeleteAll(m, keys).Success?
    ensures DeleteAll(m, keys).value.Keys == m.Keys - (set i | 0 <= i < |keys| :: keys[i])
    ensures forall k :: k in DeleteAll(m, keys).value ==> DeleteAll(m, keys).value[k] == m[k]
  {
    if |keys| > 0 {
      var rest := keys[1..];
      DeleteAllResult(m - {keys[0]}, rest);
      var all := set i | 0 <= i < |keys| :: keys[i];
      assert all == {keys[0]} + (set i | 0 <= i < |rest| :: rest[i]) by {
        forall k | k in all
          ensures k in {keys[0]} + (set i | 0 <= i < |rest| :: rest[i])
        {
          var i :| 0 <= i < |keys| && keys[i] == k;
          if i > 0 {
            assert rest[i - 1] == k;
          }
        }
      }
    }
  }

  /** With distinct keys, a failed deletion names the first key missing
      from the map. */
  lemma {:induction false} DeleteAllFailure(m: map<string, Value>, keys: seq<string>)
    requires forall i, j :: 0 <= i < j < |keys| ==> keys[i] != keys[j]
    requires DeleteAll(m, keys).Failure?
    ensures exists i ::
      && 0 <= i < |keys|
      && keys[i] !in m
      && DeleteAll(m, keys).error == KeyNotFound(keys[i])
      && forall j :: 0 <= j < i ==> keys[j] in m
  {
    if keys[0] in m {
      var rest := keys[1..];
      var m' := m - {keys[0]};
      DeleteAllFailure(m', rest);
      var i :| 0 <= i < |rest| && rest[i] !in m' && DeleteAll(m', rest).error == KeyNotFound(rest[i]) &&
        forall j :: 0 <= j < i ==> rest[j] in m';
      assert keys[i + 1] == rest[i];
      assert keys[i + 1] != keys[0];
      forall j | 0 <= j < i + 1
        ensures keys[j] in m
      {
        if j > 0 {
          assert keys[j] == rest[j - 1];
        }
      }
    }
  }

  /** The template rewrite of `AddRecordSchedule.record`: a one-off
      recording type and filter, `CallSign` and `SubTitle` copied under the
      names the write expects, then the seven fields it does not take
      deleted. */
  function RecordRewrite(rule: map<string, Value>): Result<map<string, Value>>
  {
    var typed := rule["Type" := Entities.Str("Single Record")]["Filter" := Entities.Str("1024")];
    if "CallSign" !in typed then Failure(KeyNotFound("CallSign"))
    else
      var withStation := typed["Station" := typed["CallSign"]];
      if "SubTitle" !in withStation then Failure(KeyNotFound("SubTitle"))
      else
        var renamed := withStation["Subtitle" := withStation["SubTitle"]];
        DeleteAll(renamed, RecordRemoveKeys)
  }

  /** The seven keys `record` deletes are exactly the seven names the write's
      validator removes from `RecRule.validator`. */
  lemma RecordRemovesValidatorNames()
    ensures (set i | 0 <= i < |RecordRemoveKeys| :: RecordRemoveKeys[i]) == Validators.AddRecordScheduleRemoved
    ensures forall i, j :: 0 <= i < j < |RecordRemoveKeys| ==> RecordRemoveKeys[i] != RecordRemoveKeys[j]
  {
    var ks := RecordRemoveKeys;
    assert ks[0] == "SubTitle" && ks[1] == "LastRecorded" && ks[2] == "NextRecording" && ks[3] == "AverageDelay";
    assert ks[4] == "CallSign" && ks[5] == "Id" && ks[6] == "LastDeleted";
  }

  /** The rewritten entries other than those `record` deletes: the
      rule's, with `Type`, `Filter`, `Station` and `Subtitle` set. */
  function Renamed(rule: map<string, Value>): map<string, Value>
    requires "CallSign" in rule && "SubTitle" in rule
  {
    rule["Type" := Entities.Str("Single Record")]["Filter" := Entities.Str("1024")]
      ["Station" := rule["CallSign"]]["Subtitle" := rule["SubTitle"]]
  }

  /** With `CallSign` and `SubTitle` present, the rewrite is the deletion
      of the seven keys from the renamed rule. */
  lemma RecordRewriteDeletes(rule: map<string, Value>)
    requires "CallSign" in rule && "SubTitle" in rule
    ensures RecordRewrite(rule) == DeleteAll(Renamed(rule), RecordRemoveKeys)
  {
  }

  /** The four keys the rewrite sets. */
  const RecordSetKeys: set<string> := {"Type", "Filter", "Station", "Subtitle"}

  /** The rewrite sets none of the keys it deletes. */
  lemma SetKeysNotRemoved()
    ensures RecordSetKeys !! Validators.AddRecordScheduleRemoved
  {
  }

  /** The rewrite succeeds exactly when the rule has all seven keys `record`
      deletes. */
  lemma RecordRewriteSucceeds(rule: map<string, Value>)
    ensures RecordRewrite(rule).Success? <==> Validators.AddRecordScheduleRemoved <= rule.Keys
  {
    RecordRemovesValidatorNames();
    SetKeysNotRemoved();
    var removed := Validators.AddRecordScheduleRemoved;
    if "CallSign" in rule && "SubTitle" in rule {
      var renamed := Renamed(rule);
      assert renamed.Keys == rule.Keys + RecordSetKeys;
      RecordRewriteDeletes(rule);
      DeleteAllSucceeds(renamed, RecordRemoveKeys);
      assert (forall i :: 0 <= i < |RecordRemoveKeys| ==> RecordRemoveKeys[i] in renamed) <==> removed <= renamed.Keys;
    } else {
      assert "CallSign" in removed && "SubTitle" in removed;
    }
  }

  /** A successful rewrite holds the rule's keys less the seven deleted,
      plus the four it sets; it sets `Type` to a single recording, `Filter`
      to 1024, `Station` to the old `CallSign` and `Subtitle` to the old
      `SubTitle`, and leaves every other entry as it was. */
  lemma RecordRewriteResult(rule: map<string, Value>)
    requires RecordRewrite(rule).Success?
    ensures "CallSign" in rule && "SubTitle" in rule
    ensures var r := RecordRewrite(rule).value;
      && r.Keys == (rule.Keys - Validators.AddRecordScheduleRemoved) + RecordSetKeys
      && r["Type"] == Entities.Str("Single Record")
      && r["Filter"] == Entities.Str("1024")
      && r["Station"] == rule["CallSign"]
      && r["Subtitle"] == rule["SubTitle"]
      && forall k :: k in r && k !in RecordSetKeys ==> r[k] == rule[k]
  {
    RecordRemovesValidatorNames();
    SetKeysNotRemoved();
    var renamed := Renamed(rule);
    RecordRewriteDeletes(rule);
    DeleteAllResult(renamed, RecordRemoveKeys);
    assert renamed.Keys == rule.Keys + RecordSetKeys;
    var r := RecordRewrite(rule).value;
    assert "Type" in r && "Filter" in r && "Station" in r && "Subtitle" in r;
  }

  /** A failed rewrite reports a key `record` deletes that the rule lacks,
      checking `CallSign` and then `SubTitle` first; once both are present,
      it is the first key missing in deletion order. */
  lemma RecordRewriteFailure(rule: map<string, Value>)
    requires RecordRewrite(rule).Failure?
    ensures "CallSign" !in rule ==> RecordRewrite(rule).error == KeyNotFound("CallSign")
    ensures "CallSign" in rule && "SubTitle" !in rule ==> RecordRewrite(rule).error == KeyNotFound("SubTitle")
    ensures exists k :: k in Validators.AddRecordScheduleRemoved && k !in rule && RecordRewrite(rule).error == KeyNotFound(k)
    ensures "CallSign" in rule && "SubTitle" in rule ==>
      exists i :: 0 <= i < |RecordRemoveKeys| && RecordRemoveKeys[i] !in rule
        && RecordRewrite(rule).error == KeyNotFound(RecordRemoveKeys[i])
        && forall j :: 0 <= j < i ==> RecordRemoveKeys[j] in rule
  {
    RecordRemovesValidatorNames();
    if "CallSign" in rule && "SubTitle" in rule {
      FirstMissingDeleted(rule);
      var i :| 0 <= i < |RecordRemoveKeys| && RecordRemoveKeys[i] !in rule &&
        RecordRewrite(rule).error == KeyNotFound(RecordRemoveKeys[i]);
      assert RecordRemoveKeys[i] in Validators.AddRecordScheduleRemoved;
    }
  }

  /** With `CallSign` and `SubTitle` present, a failed rewrite is the `del`
      loop's `KeyError` for the first deleted key the rule lacks. */
  lemma FirstMissingDeleted(rule: map<string, Value>)
    requires "CallSign" in rule && "SubTitle" in rule
    requires RecordRewrite(rule).Failure?
    ensures exists i ::
      && 0 <= i < |RecordRemoveKeys| && RecordRemoveKeys[i] !in rule
      && RecordRewrite(rule).error == KeyNotFound(RecordRemoveKeys[i])
      && forall j :: 0 <= j < i ==> RecordRemoveKeys[j] in rule
  {
    RecordRemovesValidatorNames();
    RecordRewriteDeletes(rule);
    RenamedKeepsDeleted(rule);
    FirstMissingAmong(Renamed(rule), rule, RecordRemoveKeys);
  }

  /** Renaming touches none of the keys `record` deletes. */
  lemma RenamedKeepsDeleted(rule: map<string, Value>)
    requires "CallSign" in rule && "SubTitle" in rule
    ensures forall j :: 0 <= j < |RecordRemoveKeys| ==> (RecordRemoveKeys[j] in Renamed(rule) <==> RecordRemoveKeys[j] in rule)
  {
    forall j | 0 <= j < |RecordRemoveKeys|
      ensures RecordRemoveKeys[j] !in RecordSetKeys
    {
    }
  }

  /** When `m` and `rule` hold the same keys of `keys`, the first key the
      `del` loop over `m` misses is the first one `rule` lacks. */
  lemma FirstMissingAmong(m: map<string, Value>, rule: map<string, Value>, keys: seq<string>)
    requires forall i, j :: 0 <= i < j < |keys| ==> keys[i] != keys[j]
    requires DeleteAll(m, keys).Failure?
    requires forall j :: 0 <= j < |keys| ==> (keys[j] in m <==> keys[j] in rule)
    ensures exists i ::
      && 0 <= i < |keys| && keys[i] !in rule
      && DeleteAll(m, keys).error == KeyNotFound(keys[i])
      && forall j :: 0 <= j < i ==> keys[j] in rule
  {
    DeleteAllFailure(m, keys);
  }

  /** The keys the rewrite sets are `Type` and `Filter` and the two the
      write's validator adds. */
  lemma SetKeysSplit()
    ensures RecordSetKeys == {"Type", "Filter"} + Validators.Names(Validators.AddRecordScheduleAdded)
  {
    Validators.AddedNames();
  }

  /** Adding the set keys to what is kept of `keys` gives what is kept plus
      the added names, when `Type` and `Filter` are among the kept keys. */
  lemma ReplaceSetKeys(keys: set<string>, removed: set<string>, added: set<string>)
    requires "Type" in keys - removed && "Filter" in keys - removed
    requires RecordSetKeys == {"Type", "Filter"} + added
    ensures (keys - removed) + RecordSetKeys == (keys - removed) + added
  {
  }

  /** Rewriting a rule shaped like `RecRule.validator` gives exactly the
      fields `AddRecordSchedule.args` declares. */
  lemma RecordRewriteFitsValidator(rule: map<string, Value>)
    requires rule.Keys == Validators.Names(Validators.RecRuleValidator())
    ensures RecordRewrite(rule).Success?
    ensures RecordRewrite(rule).value.Keys == Validators.Names(Validators.AddRecordScheduleArgs())
  {
    Validators.RecRuleFields();
    RecordRewriteSucceeds(rule);
    RecordRewriteResult(rule);
    Validators.AddRecordScheduleNames();
    Validators.AddedNames();
    SetKeysNotRemoved();
    SetKeysSplit();
    ReplaceSetKeys(rule.Keys, Validators.AddRecordScheduleRemoved, Validators.Names(Validators.AddRecordScheduleAdded));
  }

  /** `value.name` on a value passed to `record`: a nested entity's
      attribute lookup; any other value has no such attribute. */
  function AttrOf(v: Value, name: string): Result<Value>
  {
    match v
    case Obj(e) => Entities.Lookup(e, name)
    case _ => Failure(AttributeNotFound(name))
  }

  /** Calling an endpoint with the keywords `StartTime` and `ChanId` never
      runs a `record`: `record` takes only `program`, so such a call raises
      `TypeError` there. Whatever the action, the call requests or fails. */
  lemma ScheduleCallRequests(cls: EndpointClass, start: Value, chanId: Value)
    ensures var call := Dispatch(cls, [], map["StartTime" := start, "ChanId" := chanId]);
      call.Success? ==> call.value == RequestWith(map["StartTime" := start, "ChanId" := chanId])
    ensures cls.callableAction == "record" && cls.definesRecord ==>
      Dispatch(cls, [], map["StartTime" := start, "ChanId" := chanId]) == Failure(BadCallArgs)
  {
    var kwargs := map["StartTime" := start, "ChanId" := chanId];
    assert "StartTime" in kwargs.Keys && "StartTime" !in {"program"};
  }

  /** `schedule._recrule` for the rule `api.Dvr.GetRecordSchedule` returns
      for the program's start time and channel. */
  function FetchTemplate(reg: Registry, base: string, codec: Codec, transport: Transport, program: Value): Result<Value>
  {
    var getter :- EndpointOf(reg, "Dvr", "GetRecordSchedule");
    var start :- AttrOf(program, "StartTime");
    var chanId :- AttrOf(program, "ChanId");
    ScheduleCallRequests(getter, start, chanId);
    var call :- Dispatch(getter, [], map["StartTime" := start, "ChanId" := chanId]);
    var schedule :- match call
      case RequestWith(kwargs) => Request(base, getter, kwargs, codec, transport)
      case RecordProgram(_) => assert false; Failure(BadCallArgs);
    match schedule
    case Some(e) => Entities.Lookup(e, "_recrule")
    case None => Failure(AttributeNotFound("_recrule"))
  }

  /** The first half of `AddRecordSchedule.record(program)`: fetch the
      program's recording-rule template and rewrite it into the keywords of
      the write. */
  function RecordArgs(reg: Registry, base: string, codec: Codec, transport: Transport, program: Value): Result<map<string, Value>>
  {
    var template :- FetchTemplate(reg, base, codec, transport, program);
    var fields :- match template
      case Dict(m) => Success(m)
      case _ => Failure(NotAMapping);
    RecordRewrite(fields)
  }

  /** `AddRecordSchedule.record(program)`: the rewritten template is sent
      through `self.post`; `record` itself returns nothing. */
  function Record(reg: Registry, base: string, codec: Codec, transport: Transport, cls: EndpointClass, program: Value): Result<Option<Entities.Entity>>
  {
    var args :- RecordArgs(reg, base, codec, transport, program);
    var post :- Attribute(cls, "post");
    var posted :- Request(base, cls, args, codec, transport);
    Success(None)
  }

  /** `endpoint(*args, **kwargs)` on an instance of `cls`. */
  function Call(reg: Registry, base: string, codec: Codec, transport: Transport, cls: EndpointClass, args: seq<Value>, kwargs: map<string, Value>): Result<Option<Entities.Entity>>
  {
    var invocation :- Dispatch(cls, args, kwargs);
    match invocation
    case RequestWith(kw) => Request(base, cls, kw, codec, transport)
    case RecordProgram(program) => Record(reg, base, codec, transport, cls, program)
  }

  /** A get endpoint's call with keywords dispatches to a request with them. */
  lemma DispatchGet(cls: EndpointClass, kwargs: map<string, Value>)
    requires cls.callableAction == "get" && !cls.isPost
    ensures Dispatch(cls, [], kwargs) == Success(RequestWith(kwargs))
  {
    assert "get" !in EndpointMembers;
  }

  /** Given the registry's schedule read, the template fetched is the
      returned rule's `_recrule` mapping. */
  lemma FetchTemplateOf(reg: Registry, base: string, codec: Codec, transport: Transport, getter: EndpointClass,
                        program: Entities.Entity, start: Value, chanId: Value, rule: map<string, Value>)
    requires EndpointOf(reg, "Dvr", "GetRecordSchedule") == Success(getter)
    requires getter.callableAction == "get" && !getter.isPost
    requires Entities.Lookup(program, "StartTime") == Success(start)
    requires Entities.Lookup(program, "ChanId") == Success(chanId)
    requires Request(base, getter, map["StartTime" := start, "ChanId" := chanId], codec, transport) ==
      Success(Some(Entities.NewRecRule(Entities.Dict(rule))))
    ensures FetchTemplate(reg, base, codec, transport, Entities.Obj(program)) == Success(Entities.Dict(rule))
  {
    DispatchGet(getter, map["StartTime" := start, "ChanId" := chanId]);
    assert Entities.Direct(Entities.NewRecRule(Entities.Dict(rule)), "_recrule") == Some(Entities.Dict(rule));
  }

  /** Given the registry's schedule read, recording a program fetches the
      template for the program's start time and channel and rewrites the
      `_recrule` mapping of the returned rule. */
  lemma RecordArgsFromTemplate(reg: Registry, base: string, codec: Codec, transport: Transport, getter: EndpointClass,
                               program: Entities.Entity, start: Value, chanId: Value, rule: map<string, Value>)
    requires EndpointOf(reg, "Dvr", "GetRecordSchedule") == Success(getter)
    requires getter.callableAction == "get" && !getter.isPost
    requires Entities.Lookup(program, "StartTime") == Success(start)
    requires Entities.Lookup(program, "ChanId") == Success(chanId)
    requires Request(base, getter, map["StartTime" := start, "ChanId" := chanId], codec, transport) ==
      Success(Some(Entities.NewRecRule(Entities.Dict(rule))))
    ensures RecordArgs(reg, base, codec, transport, Entities.Obj(program)) == RecordRewrite(rule)
  {
    FetchTemplateOf(reg, base, codec, transport, getter, program, start, chanId, rule);
  }

  /** Calling a write whose action is its own `record` on a program runs
      `record`, which, when it goes through, has posted the stringified
      rewrite to `{url}/{service}/{endpoint}` and returns nothing. */
  lemma RecordCallPosts(reg: Registry, base: string, codec: Codec, transport: Transport, cls: EndpointClass, program: Value)
    requires cls.callableAction == "record" && cls.definesRecord && cls.isPost
    requires Call(reg, base, codec, transport, cls, [program], map[]).Success?
    ensures Call(reg, base, codec, transport, cls, [program], map[]).value == None
    ensures RecordArgs(reg, base, codec, transport, program).Success?
    ensures var args := RecordArgs(reg, base, codec, transport, program).value;
      codec.toStrings(cls.args, args).Success? &&
      transport(HttpRequest(Post, base + "/" + cls.service + "/" + cls.endpoint, AcceptJson, codec.toStrings(cls.args, args).value)).Success?
  {
    assert Dispatch(cls, [program], map[]) == Success(RecordProgram(program));
    var args := RecordArgs(reg, base, codec, transport, program).value;
    RequestOutcome(base, cls, args, codec, transport);
  }

  /** Recording a program through the loaded registry, when the schedule
      read returns a template with the fields of `RecRule.validator`, posts
      keywords whose names are exactly the fields of `AddRecordSchedule.args`. */
  lemma RecordPostsValidatorFields(base: string, codec: Codec, transport: Transport, program: Entities.Entity,
                                   start: Value, chanId: Value, rule: map<string, Value>)
    requires Entities.Lookup(program, "StartTime") == Success(start)
    requires Entities.Lookup(program, "ChanId") == Success(chanId)
    requires Request(base, GetRecordScheduleEndpoint, map["StartTime" := start, "ChanId" := chanId], codec, transport) ==
      Success(Some(Entities.NewRecRule(Entities.Dict(rule))))
    requires rule.Keys == Validators.Names(Validators.RecRuleValidator())
    ensures RecordArgs(Registered(), base, codec, transport, Entities.Obj(program)).Success?
    ensures RecordArgs(Registered(), base, codec, transport, Entities.Obj(program)).value.Keys ==
      Validators.Names(Validators.AddRecordScheduleArgs())
  {
    RegisteredEndpoints();
    RecordArgsFromTemplate(Registered(), base, codec, transport, GetRecordScheduleEndpoint, program, start, chanId, rule);
    RecordRewriteFitsValidator(rule);
  }
}
