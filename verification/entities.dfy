/** The entity layer (`models.Base` and its subclasses): an entity binds its
    constructor arguments to declared backing-source names, and resolves any
    other attribute by scanning those sources in declared order, falling back
    into nested entities. */
module Entities {

  import opened Results
  import Recording
  import Seqs

  /** A decoded JSON value as the entity layer holds it, after the validators
      have coerced it; `Obj` is a nested entity (a `Program`'s `Channel`). */
  datatype Value =
    | Str(s: string)
    | Int(i: int)
    | Bool(b: bool)
    | Null
    | RecType(t: Recording.RecordingType)
    | List(items: seq<Value>)
    | Dict(fields: map<string, Value>)
    | Obj(e: Entity)
    /** An attribute the entity's class defines itself (a method, a class
        constant or a property), left opaque. */
    | ClassAttr(name: string)

  /** A model class's declared backing sources, `attr_key` (falsy when `None`
      or empty) and `attr_keys` (falsy when empty), and the names the class
      defines itself: its properties, which Python finds before an instance
      attribute of the same name, and its other class attributes and
      methods, which it finds after one. */
  datatype KeySpec = KeySpec(attrKey: Option<string>, attrKeys: seq<string>,
                             properties: set<string>, classAttrs: set<string>)

  /** An instance: its class's key declaration and its instance attributes. */
  datatype Entity = Entity(spec: KeySpec, inst: map<string, Value>)

  /** The class attributes and methods every model class inherits from
      `Base`. */
  const BaseAttrs: set<string> := {
    "attr_key", "attr_keys", "repr_attrs", "sort_attr",
    "__getattr__", "__repr__", "__lt__", "_get_attr_keys", "__init__"
  }

  const ProgramSpec := KeySpec(None, ["_program", "channel"], {"video_props_list"}, BaseAttrs + {"validator"})
  const ChannelSpec := KeySpec(Some("_channel"), [], {"programs"}, BaseAttrs + {"validator"})
  const GuideSpec := KeySpec(Some("_guide"), [], {"channels", "programs"}, BaseAttrs + {"args", "search"})
  const RecRuleSpec := KeySpec(None, ["_recrule"], {}, BaseAttrs + {"validator", "args"})
  const RecRuleListSpec := KeySpec(Some("_recrulelist"), [], {"all_rec_rules", "non_template_rec_rules"},
                                   BaseAttrs + {"validator", "__iter__"})

  /** `Base._get_attr_keys`. */
  function GetAttrKeys(spec: KeySpec): Result<seq<string>>
  {
    if |spec.attrKeys| > 0 then Success(spec.attrKeys)
    else if spec.attrKey.Some? && spec.attrKey.value != "" then Success([spec.attrKey.value])
    else Failure(NoAttrKeys)
  }

  /** A non-empty `attr_keys` wins over `attr_key`; a non-empty `attr_key`
      alone gives one source; with neither, the lookup of sources fails. */
  lemma GetAttrKeysPrecedence(spec: KeySpec)
    ensures |spec.attrKeys| > 0 ==> GetAttrKeys(spec) == Success(spec.attrKeys)
    ensures |spec.attrKeys| == 0 && spec.attrKey.Some? && spec.attrKey.value != "" ==>
      GetAttrKeys(spec) == Success([spec.attrKey.value])
    ensures GetAttrKeys(spec).Failure? <==>
      |spec.attrKeys| == 0 && (spec.attrKey.None? || spec.attrKey.value == "")
    ensures GetAttrKeys(spec).Success? ==> |GetAttrKeys(spec).value| > 0
  {
  }

  /** `dict(zip(keys, args))`: positional arguments bound to the leading
      keys, a later repeat of a key overwriting an earlier one. */
  function Zip(keys: seq<string>, args: seq<Value>): (r: map<string, Value>)
    requires |args| <= |keys|
    ensures r.Keys == set i | 0 <= i < |args| :: keys[i]
    decreases |args|
  {
    if |args| == 0 then map[]
    else
      var n := |args| - 1;
      Zip(keys[..n], args[..n])[keys[n] := args[n]]
  }

  /** Each positional argument lands under its key, unless a later argument
      is bound to the same key. */
  lemma {:induction false} ZipBinds(keys: seq<string>, args: seq<Value>, i: nat)
    requires |args| <= |keys| && i < |args|
    requires forall j :: i < j < |args| ==> keys[j] != keys[i]
    ensures keys[i] in Zip(keys, args) && Zip(keys, args)[keys[i]] == args[i]
    decreases |args|
  {
    var n := |args| - 1;
    if i < n {
      ZipBinds(keys[..n], args[..n], i);
    }
  }

  /** `Base.__init__(*args, **kwargs)`. */
  function Construct(spec: KeySpec, args: seq<Value>, kwargs: map<string, Value>): (r: Result<Entity>)
  {
    var keys :- GetAttrKeys(spec);
    if |args| + |kwargs| != |keys| then Failure(ArgCountMismatch(|args| + |kwargs|, |keys|))
    else
      var asKwargs := Zip(keys, args);
      var repeats := asKwargs.Keys * kwargs.Keys;
      if repeats != {} then Failure(RepeatedArgs(repeats))
      else Success(Entity(spec, asKwargs + kwargs))
  }

  /** Construction fails when the positional and keyword arguments together
      do not number the declared sources. */
  lemma ConstructArity(spec: KeySpec, args: seq<Value>, kwargs: map<string, Value>)
    requires GetAttrKeys(spec).Success?
    requires |args| + |kwargs| != |GetAttrKeys(spec).value|
    ensures Construct(spec, args, kwargs) ==
      Failure(ArgCountMismatch(|args| + |kwargs|, |GetAttrKeys(spec).value|))
  {
  }

  /** With the right count, construction fails exactly when a key bound
      positionally is also given by keyword. */
  lemma ConstructRepeats(spec: KeySpec, args: seq<Value>, kwargs: map<string, Value>)
    requires GetAttrKeys(spec).Success?
    requires |args| + |kwargs| == |GetAttrKeys(spec).value|
    ensures Construct(spec, args, kwargs).Failure? <==>
      exists i :: 0 <= i < |args| && GetAttrKeys(spec).value[i] in kwargs
  {
    var keys := GetAttrKeys(spec).value;
    var asKwargs := Zip(keys, args);
    if exists i :: 0 <= i < |args| && keys[i] in kwargs {
      var i :| 0 <= i < |args| && keys[i] in kwargs;
      assert keys[i] in asKwargs.Keys * kwargs.Keys;
    }
  }

  /** A constructed instance holds exactly the keys bound positionally and
      the keyword arguments, the latter unchanged. */
  lemma ConstructKeys(spec: KeySpec, args: seq<Value>, kwargs: map<string, Value>)
    requires Construct(spec, args, kwargs).Success?
    ensures GetAttrKeys(spec).Success? && |args| <= |GetAttrKeys(spec).value|
    ensures var e := Construct(spec, args, kwargs).value;
      e.spec == spec &&
      e.inst.Keys == (set i | 0 <= i < |args| :: GetAttrKeys(spec).value[i]) + kwargs.Keys &&
      forall k :: k in kwargs ==> e.inst[k] == kwargs[k]
  {
    ConstructShape(spec, args, kwargs);
  }

  /** A constructed instance holds the positional arguments bound by `Zip`
      plus the keyword arguments, which name no bound key. */
  lemma ConstructShape(spec: KeySpec, args: seq<Value>, kwargs: map<string, Value>)
    requires Construct(spec, args, kwargs).Success?
    ensures GetAttrKeys(spec).Success? && |args| <= |GetAttrKeys(spec).value|
    ensures var asKwargs := Zip(GetAttrKeys(spec).value, args);
      Construct(spec, args, kwargs).value == Entity(spec, asKwargs + kwargs) &&
      asKwargs.Keys * kwargs.Keys == {}
  {
  }

  /** With distinct keys, the `i`-th positional argument is the instance's
      attribute named by the `i`-th key. */
  lemma ConstructBindsPositional(spec: KeySpec, args: seq<Value>, kwargs: map<string, Value>, i: nat)
    requires Construct(spec, args, kwargs).Success? && i < |args|
    requires GetAttrKeys(spec).Success?
    requires var keys := GetAttrKeys(spec).value;
      forall a, b :: 0 <= a < b < |keys| ==> keys[a] != keys[b]
    ensures i < |GetAttrKeys(spec).value|
    ensures var keys := GetAttrKeys(spec).value;
      Construct(spec, args, kwargs).value.inst[keys[i]] == args[i]
  {
    ConstructShape(spec, args, kwargs);
    var keys := GetAttrKeys(spec).value;
    ZipBinds(keys, args, i);
    var asKwargs := Zip(keys, args);
    assert keys[i] in asKwargs.Keys;
    assert keys[i] !in asKwargs.Keys * kwargs.Keys;
    assert keys[i] !in kwargs;
  }

  /** With exactly as many positional arguments as keys and no keywords,
      construction succeeds and binds the arguments in key order. */
  lemma ConstructPositional(spec: KeySpec, args: seq<Value>)
    requires GetAttrKeys(spec).Success? && |args| == |GetAttrKeys(spec).value|
    ensures Construct(spec, args, map[]) == Success(Entity(spec, Zip(GetAttrKeys(spec).value, args)))
  {
    var keys := GetAttrKeys(spec).value;
    assert Zip(keys, args) + map[] == Zip(keys, args);
  }

  /** The backing sources an entity may consult, as a set. */
  function KeySet(e: Entity): set<string>
  {
    match GetAttrKeys(e.spec)
    case Success(keys) => set k | k in keys
    case Failure(_) => {}
  }

  /** Termination measure of `__getattr__`: each re-entry for a missing
      source adds a name to `pending`, and the name re-entered is a source. */
  function Measure(e: Entity, name: string, pending: set<string>): nat
  {
    2 * |KeySet(e) - pending| + (if name in KeySet(e) then 0 else 1)
  }

  lemma MeasureDecreases(e: Entity, name: string, k: string, pending: set<string>)
    requires name !in pending && k in KeySet(e)
    ensures Measure(e, k, pending + {name}) < Measure(e, name, pending)
  {
    var ks := KeySet(e);
    if name in ks {
      assert ks - (pending + {name}) == (ks - pending) - {name};
      assert name in ks - pending;
    } else {
      assert ks - (pending + {name}) == ks - pending;
    }
  }

  /** Python's attribute lookup before `__getattr__`: a property of the
      class, else an instance attribute, else another class attribute;
      `None` when all three miss. A value found is the class's own attribute
      or a part of the entity. */
  function Direct(e: Entity, name: string): (r: Option<Value>)
    ensures r.Some? ==> r.value.ClassAttr? || r.value < e
  {
    if name in e.spec.properties then Some(ClassAttr(name))
    else if name in e.inst then Some(e.inst[name])
    else if name in e.spec.classAttrs then Some(ClassAttr(name))
    else None
  }

  /** `getattr(entity, name)`: what the class and instance define first,
      otherwise `Base.__getattr__`. The result is the class's own attribute
      or a part of the entity. */
  function Lookup(e: Entity, name: string): (r: Result<Value>)
    ensures r.Success? ==> r.value.ClassAttr? || r.value < e
    decreases e, 2 * |KeySet(e)| + 2, 3, 0
  {
    match Direct(e, name)
    case Some(v) => Success(v)
    case None => GetAttr(e, name, {})
  }

  /** `Base.__getattr__(name)` while the lookups of the names in `pending`
      are still running on the same instance; re-entering one of them never
      returns, which Python ends with `RecursionError`. */
  function GetAttr(e: Entity, name: string, pending: set<string>): (r: Result<Value>)
    ensures r.Success? ==> r.value.ClassAttr? || r.value < e
    decreases e, Measure(e, name, pending), 2, 0
  {
    if name in pending then Failure(RecursionLimit)
    else
      match GetAttrKeys(e.spec)
      case Failure(err) => Failure(err)
      case Success(keys) => Scan(e, 0, name, pending)
  }

  /** `getattr(self, attr_key)` for one declared source. */
  function Source(e: Entity, k: string, name: string, pending: set<string>): (r: Result<Value>)
    requires name !in pending && k in KeySet(e)
    ensures r.Success? ==> r.value.ClassAttr? || r.value < e
    decreases e, Measure(e, name, pending), 0, 0
  {
    match Direct(e, k)
    case Some(v) => Success(v)
    case None =>
      MeasureDecreases(e, name, k, pending);
      GetAttr(e, k, pending + {name})
  }

  /** The loop of `Base.__getattr__` from the `i`-th source on. */
  function Scan(e: Entity, i: nat, name: string, pending: set<string>): (r: Result<Value>)
    requires GetAttrKeys(e.spec).Success? && i <= |GetAttrKeys(e.spec).value|
    requires name !in pending
    ensures r.Success? ==> r.value.ClassAttr? || r.value < e
    decreases e, Measure(e, name, pending), 1, |GetAttrKeys(e.spec).value| - i
  {
    var keys := GetAttrKeys(e.spec).value;
    if i == |keys| then Failure(AttributeNotFound(name))
    else
      var obj :- Source(e, keys[i], name, pending);
      match obj
      case Dict(m) =>
        if name in m then Success(m[name]) else Scan(e, i + 1, name, pending)
      case Obj(inner) =>
        (match Lookup(inner, name)
         case Success(v) => Success(v)
         case Failure(err) =>
           if err.AttributeNotFound? then Scan(e, i + 1, name, pending) else Failure(err))
      case _ => Scan(e, i + 1, name, pending)
  }

  /** A source value lets the scan move on to the next source: a mapping
      without the name, a nested entity whose own lookup raises
      `AttributeError`, or any other value (the attributes of a plain value
      or of a class attribute are not modelled). */
  predicate PassesOver(v: Value, name: string)
  {
    match v
    case Dict(m) => name !in m
    case Obj(inner) => Lookup(inner, name).Failure? && Lookup(inner, name).error.AttributeNotFound?
    case _ => true
  }

  /** The entity has every declared source bound as an instance attribute,
      and no property of its class hides one. */
  predicate Bound(e: Entity)
  {
    GetAttrKeys(e.spec).Success? &&
    forall i :: 0 <= i < |GetAttrKeys(e.spec).value| ==>
      GetAttrKeys(e.spec).value[i] in e.inst && GetAttrKeys(e.spec).value[i] !in e.spec.properties
  }

  /** Sources are consulted in declared order: once the scan has passed
      over the sources before `i`, the `i`-th decides the lookup if it
      resolves the name. */
  lemma {:induction false} ScanFirstResolves(e: Entity, i: nat, j: nat, name: string)
    requires Bound(e) && i <= j < |GetAttrKeys(e.spec).value|
    requires forall t :: i <= t < j ==> PassesOver(e.inst[GetAttrKeys(e.spec).value[t]], name)
    requires !PassesOver(e.inst[GetAttrKeys(e.spec).value[j]], name)
    ensures var src := e.inst[GetAttrKeys(e.spec).value[j]];
      Scan(e, i, name, {}) ==
        match src
        case Dict(m) => Success(m[name])
        case Obj(inner) => Lookup(inner, name)
        case _ => Failure(AttributeNotFound(name))
    decreases j - i
  {
    var keys := GetAttrKeys(e.spec).value;
    assert keys[i] in KeySet(e);
    if i < j {
      ScanFirstResolves(e, i + 1, j, name);
    }
  }

  /** If every source passes over the name, the lookup raises
      `AttributeError` for it. */
  lemma {:induction false} ScanNoneResolves(e: Entity, i: nat, name: string)
    requires Bound(e) && i <= |GetAttrKeys(e.spec).value|
    requires forall t :: i <= t < |GetAttrKeys(e.spec).value| ==>
      PassesOver(e.inst[GetAttrKeys(e.spec).value[t]], name)
    ensures Scan(e, i, name, {}) == Failure(AttributeNotFound(name))
    decreases |GetAttrKeys(e.spec).value| - i
  {
    var keys := GetAttrKeys(e.spec).value;
    if i < |keys| {
      assert keys[i] in KeySet(e);
      ScanNoneResolves(e, i + 1, name);
    }
  }

  /** A source that is missing from the instance makes `__getattr__` look it
      up through itself again, for ever: the first declared source missing
      ends every lookup of a non-attribute in `RecursionError`. */
  lemma FirstSourceMissing(e: Entity, name: string)
    requires GetAttrKeys(e.spec).Success?
    requires Direct(e, GetAttrKeys(e.spec).value[0]).None? && Direct(e, name).None?
    ensures Lookup(e, name) == Failure(RecursionLimit)
  {
    var keys := GetAttrKeys(e.spec).value;
    GetAttrKeysPrecedence(e.spec);
    var k := keys[0];
    assert k in KeySet(e);
    if k != name {
      assert {name} + {k} == {name, k} && {} + {name} == {name};
      assert Source(e, k, k, {name}) == GetAttr(e, k, {name, k}) == Failure(RecursionLimit);
      assert Scan(e, 0, k, {name}) == Failure(RecursionLimit);
      assert GetAttr(e, k, {name}) == Failure(RecursionLimit);
      assert Source(e, k, name, {}) == Failure(RecursionLimit);
    } else {
      assert {} + {name} == {name};
      assert Source(e, k, name, {}) == GetAttr(e, k, {name}) == Failure(RecursionLimit);
    }
    assert Scan(e, 0, name, {}) == Failure(RecursionLimit);
  }

  /** `Channel(ch_dict)`. */
  function NewChannel(source: Value): Entity
  {
    Entity(ChannelSpec, map["_channel" := source])
  }

  /** `Program(pr_dict, channel)`. */
  function NewProgram(source: Value, channel: Entity): Entity
  {
    Entity(ProgramSpec, map["_program" := source, "channel" := Obj(channel)])
  }

  /** `RecRule(rr)`. */
  function NewRecRule(source: Value): Entity
  {
    Entity(RecRuleSpec, map["_recrule" := source])
  }

  /** The two shorthands are what the constructor builds from one, and from
      two, positional arguments. */
  lemma NewEntitiesConstruct(source: Value, channel: Entity)
    ensures Construct(ChannelSpec, [source], map[]) == Success(NewChannel(source))
    ensures Construct(ProgramSpec, [source, Obj(channel)], map[]) == Success(NewProgram(source, channel))
    ensures Construct(RecRuleSpec, [source], map[]) == Success(NewRecRule(source))
  {
    ConstructPositional(ChannelSpec, [source]);
    assert Zip(["_channel"], [source]) == NewChannel(source).inst;
    ConstructPositional(RecRuleSpec, [source]);
    assert Zip(["_recrule"], [source]) == NewRecRule(source).inst;
    var keys := ["_program", "channel"];
    var args := [source, Obj(channel)];
    ConstructPositional(ProgramSpec, args);
    assert keys[..1] == ["_program"] && args[..1] == [source];
    assert Zip(keys[..1], args[..1]) == map["_program" := source];
    assert Zip(keys, args) == NewProgram(source, channel).inst;
  }

  /** A `Channel`'s attributes: the class's properties, then its `_channel`
      source, then the class's other attributes, then the dictionary's
      entries; any other name raises `AttributeError`. */
  lemma ChannelLookup(channel: map<string, Value>, name: string)
    ensures Lookup(NewChannel(Dict(channel)), name) ==
      if name in ChannelSpec.properties then Success(ClassAttr(name))
      else if name == "_channel" then Success(Dict(channel))
      else if name in ChannelSpec.classAttrs then Success(ClassAttr(name))
      else if name in channel then Success(channel[name])
      else Failure(AttributeNotFound(name))
  {
    var ch := NewChannel(Dict(channel));
    assert "_channel" !in ChannelSpec.properties;
    assert Bound(ch);
    if Direct(ch, name).None? {
      if name in channel {
        ScanFirstResolves(ch, 0, 0, name);
      } else {
        ScanNoneResolves(ch, 0, name);
      }
    }
  }

  /** A `Program` built from its own fields and its `Channel`: the class's
      properties, its two sources and its other class attributes come first;
      then its fields, which shadow the channel's; a name it does not know is
      looked up on the channel, whose `AttributeError` it passes on. */
  lemma ProgramFallsBackToChannel(program: map<string, Value>, channel: map<string, Value>, name: string)
    ensures var ch := NewChannel(Dict(channel));
      Lookup(NewProgram(Dict(program), ch), name) ==
        if name in ProgramSpec.properties then Success(ClassAttr(name))
        else if name == "_program" then Success(Dict(program))
        else if name == "channel" then Success(Obj(ch))
        else if name in ProgramSpec.classAttrs then Success(ClassAttr(name))
        else if name in program then Success(program[name])
        else Lookup(ch, name)
  {
    var ch := NewChannel(Dict(channel));
    var pr := NewProgram(Dict(program), ch);
    assert "_program" !in ProgramSpec.properties && "channel" !in ProgramSpec.properties;
    assert Bound(pr);
    if Direct(pr, name).None? {
      ChannelLookup(channel, name);
      if name in program {
        ScanFirstResolves(pr, 0, 0, name);
      } else if !PassesOver(Obj(ch), name) {
        ScanFirstResolves(pr, 0, 1, name);
      } else {
        ScanNoneResolves(pr, 0, name);
      }
    }
  }

  /** `value[key]` on a decoded value. */
  function Subscript(v: Value, key: string): (r: Result<Value>)
  {
    match v
    case Dict(m) => if key in m then Success(m[key]) else Failure(KeyNotFound(key))
    case _ => Failure(NotAMapping)
  }

  /** The elements a `for` loop over a decoded list visits. */
  function Items(v: Value): (r: Result<seq<Value>>)
  {
    match v
    case List(xs) => Success(xs)
    case _ => Failure(NotAList)
  }

  /** `Channel.programs`: one `Program` per entry of the channel's
      `Programs` list, in list order, each paired with the channel. */
  function ChannelPrograms(ch: Entity): (r: Result<seq<Entity>>)
    ensures r.Success? ==> forall i :: 0 <= i < |r.value| ==> BoundTo(r.value[i], ch)
  {
    var source :- Lookup(ch, "_channel");
    var listed :- Subscript(source, "Programs");
    var items :- Items(listed);
    Success(seq(|items|, i requires 0 <= i < |items| => NewProgram(items[i], ch)))
  }

  /** The program's `channel` attribute is the given channel. */
  predicate BoundTo(program: Entity, ch: Entity)
  {
    "channel" in program.inst && program.inst["channel"] == Obj(ch)
  }

  /** Each program of a channel built from a dictionary is the matching
      entry of that dictionary's `Programs` list, bound to the channel. */
  lemma ChannelProgramsFromList(fields: map<string, Value>, items: seq<Value>)
    requires "Programs" in fields && fields["Programs"] == List(items)
    ensures var ch := NewChannel(Dict(fields));
      ChannelPrograms(ch).Success? && |ChannelPrograms(ch).value| == |items| &&
      forall i :: 0 <= i < |items| ==>
        ChannelPrograms(ch).value[i] == NewProgram(items[i], ch) &&
        Construct(ProgramSpec, [items[i], Obj(ch)], map[]) == Success(NewProgram(items[i], ch))
  {
    var ch := NewChannel(Dict(fields));
    forall i | 0 <= i < |items|
      ensures Construct(ProgramSpec, [items[i], Obj(ch)], map[]) == Success(NewProgram(items[i], ch))
    {
      NewEntitiesConstruct(items[i], ch);
    }
  }

  /** `ProgramGuide.channels`: one `Channel` per entry of the guide's
      `Channels` list, in list order. */
  function GuideChannels(guide: Entity): (r: Result<seq<Entity>>)
    ensures r.Success? ==> forall i :: 0 <= i < |r.value| ==> r.value[i].spec == ChannelSpec
  {
    var source :- Lookup(guide, "_guide");
    var listed :- Subscript(source, "Channels");
    var items :- Items(listed);
    Success(seq(|items|, i requires 0 <= i < |items| => NewChannel(items[i])))
  }

  /** `ProgramGuide(_guide=source)`, as the guide read builds it. */
  function NewGuide(source: Value): Entity
  {
    Entity(GuideSpec, map["_guide" := source])
  }

  /** The guide read builds a guide by keyword. */
  lemma NewGuideConstruct(source: Value)
    ensures Construct(GuideSpec, [], map["_guide" := source]) == Success(NewGuide(source))
  {
    assert Zip(["_guide"], []) + map["_guide" := source] == map["_guide" := source];
  }

  /** A guide built by keyword from a dictionary lists one `Channel(ch_dict)`
      per entry of that dictionary's `Channels` list, in list order. */
  lemma GuideChannelsFromList(fields: map<string, Value>, items: seq<Value>)
    requires "Channels" in fields && fields["Channels"] == List(items)
    ensures Construct(GuideSpec, [], map["_guide" := Dict(fields)]) == Success(NewGuide(Dict(fields)))
    ensures var guide := NewGuide(Dict(fields));
      GuideChannels(guide).Success? && |GuideChannels(guide).value| == |items| &&
      forall i :: 0 <= i < |items| ==>
        GuideChannels(guide).value[i] == NewChannel(items[i]) &&
        Construct(ChannelSpec, [items[i]], map[]) == Success(NewChannel(items[i]))
  {
    assert "_guide" !in GuideSpec.properties;
    NewGuideConstruct(Dict(fields));
    forall i | 0 <= i < |items|
      ensures Construct(ChannelSpec, [items[i]], map[]) == Success(NewChannel(items[i]))
    {
      NewEntitiesConstruct(items[i], NewChannel(items[i]));
    }
  }

  /** The programs of several channels, channel after channel; the first
      channel whose programs cannot be listed ends the iteration. */
  function ProgramsOf(channels: seq<Entity>): (r: Result<seq<Entity>>)
  {
    if |channels| == 0 then Success([])
    else
      var first :- ChannelPrograms(channels[0]);
      var rest :- ProgramsOf(channels[1..]);
      Success(first + rest)
  }

  /** The programs are listed exactly when every channel's are, and are
      then the concatenation of the channels' program lists in channel
      order. */
  lemma {:induction false} ProgramsOfFlatten(channels: seq<Entity>)
    ensures ProgramsOf(channels).Success? <==>
      forall i :: 0 <= i < |channels| ==> ChannelPrograms(channels[i]).Success?
    ensures ProgramsOf(channels).Success? ==>
      ProgramsOf(channels).value ==
        Seqs.Flatten(seq(|channels|, i requires 0 <= i < |channels| => ChannelPrograms(channels[i]).value))
  {
    if |channels| > 0 {
      ProgramsOfFlatten(channels[1..]);
      assert forall i :: 0 < i < |channels| ==> channels[1..][i - 1] == channels[i];
      if ProgramsOf(channels).Success? {
        var lists := seq(|channels|, i requires 0 <= i < |channels| => ChannelPrograms(channels[i]).value);
        var tail := seq(|channels| - 1, i requires 0 <= i < |channels| - 1 => ChannelPrograms(channels[1..][i]).value);
        assert lists[1..] == tail;
      }
    }
  }

  /** Every program a channel list yields is bound to one of those channels. */
  lemma {:induction false} ProgramsOfChannels(channels: seq<Entity>)
    ensures ProgramsOf(channels).Success? ==>
      forall p :: p in ProgramsOf(channels).value ==>
        exists i :: 0 <= i < |channels| && BoundTo(p, channels[i])
  {
    if |channels| > 0 && ProgramsOf(channels).Success? {
      ProgramsOfChannels(channels[1..]);
      var first := ChannelPrograms(channels[0]).value;
      var rest := ProgramsOf(channels[1..]).value;
      forall p | p in ProgramsOf(channels).value
        ensures exists i :: 0 <= i < |channels| && BoundTo(p, channels[i])
      {
        if p in first {
          var k :| 0 <= k < |first| && first[k] == p;
        } else {
          assert p in rest;
          var i :| 0 <= i < |channels[1..]| && BoundTo(p, channels[1..][i]);
          assert channels[1..][i] == channels[i + 1];
        }
      }
    }
  }

  /** `ProgramGuide.programs`: every channel's programs, channel after
      channel. */
  function GuidePrograms(guide: Entity): Result<seq<Entity>>
  {
    var channels :- GuideChannels(guide);
    ProgramsOf(channels)
  }

  /** `rule.Type`, which must hold a recording type for `is_on` to exist. */
  function RuleType(rule: Entity): (r: Result<Recording.RecordingType>)
  {
    var t :- Lookup(rule, "Type");
    match t
    case RecType(rt) => Success(rt)
    case _ => Failure(AttributeNotFound("is_on"))
  }

  /** `RecRuleList.all_rec_rules`: one `RecRule` per entry of `RecRules`. */
  function AllRecRules(list: Entity): (r: Result<seq<Entity>>)
    ensures r.Success? ==> forall i :: 0 <= i < |r.value| ==> r.value[i].spec == RecRuleSpec
  {
    var listed :- Lookup(list, "RecRules");
    var items :- Items(listed);
    Success(seq(|items|, i requires 0 <= i < |items| => NewRecRule(items[i])))
  }

  /** `RecRuleList(_recrulelist=source)`, as the rule-list read builds it. */
  function NewRecRuleList(source: Value): Entity
  {
    Entity(RecRuleListSpec, map["_recrulelist" := source])
  }

  /** A rule list's `RecRules` is its dictionary's entry. */
  lemma RecRuleListEntry(fields: map<string, Value>)
    requires "RecRules" in fields
    ensures Lookup(NewRecRuleList(Dict(fields)), "RecRules") == Success(fields["RecRules"])
  {
    var list := NewRecRuleList(Dict(fields));
    assert "_recrulelist" !in RecRuleListSpec.properties;
    assert Bound(list);
    assert "RecRules" !in RecRuleListSpec.properties && "RecRules" !in RecRuleListSpec.classAttrs;
    ScanFirstResolves(list, 0, 0, "RecRules");
  }

  /** A rule list built by keyword from a dictionary yields one
      `RecRule(rr)` per entry of that dictionary's `RecRules` list, in list
      order. */
  lemma AllRecRulesFromList(fields: map<string, Value>, items: seq<Value>)
    requires "RecRules" in fields && fields["RecRules"] == List(items)
    ensures Construct(RecRuleListSpec, [], map["_recrulelist" := Dict(fields)]) == Success(NewRecRuleList(Dict(fields)))
    ensures var list := NewRecRuleList(Dict(fields));
      AllRecRules(list).Success? && |AllRecRules(list).value| == |items| &&
      forall i :: 0 <= i < |items| ==>
        AllRecRules(list).value[i] == NewRecRule(items[i]) &&
        Construct(RecRuleSpec, [items[i]], map[]) == Success(NewRecRule(items[i]))
  {
    assert Zip(["_recrulelist"], []) + map["_recrulelist" := Dict(fields)] == map["_recrulelist" := Dict(fields)];
    RecRuleListEntry(fields);
    forall i | 0 <= i < |items|
      ensures Construct(RecRuleSpec, [items[i]], map[]) == Success(NewRecRule(items[i]))
    {
      NewEntitiesConstruct(items[i], NewChannel(items[i]));
    }
  }

  /** `non_template_rec_rules` over given rules: those whose `Type` is on,
      in order; the first rule whose `Type` cannot be read ends the
      iteration. */
  function OnRules(rules: seq<Entity>): (r: Result<seq<Entity>>)
    ensures r.Success? ==> forall i :: 0 <= i < |r.value| ==>
      RuleType(r.value[i]).Success? && Recording.IsOn(RuleType(r.value[i]).value)
  {
    if |rules| == 0 then Success([])
    else
      var t :- RuleType(rules[0]);
      var rest :- OnRules(rules[1..]);
      Success(if Recording.IsOn(t) then [rules[0]] + rest else rest)
  }

  /** A rule's type, or not-recording where it cannot be read. */
  function TypeOrOff(rule: Entity): Recording.RecordingType
  {
    match RuleType(rule)
    case Success(t) => t
    case Failure(_) => Recording.NotRecording
  }

  /** When every rule's type can be read, iterating the list is exactly the
      type filter on rules. */
  lemma OnRulesFilter(rules: seq<Entity>)
    ensures OnRules(rules).Success? <==> forall i :: 0 <= i < |rules| ==> RuleType(rules[i]).Success?
    ensures OnRules(rules).Success? ==>
      OnRules(rules).value == Recording.NonTemplateRules(rules, TypeOrOff)
  {
    OnRulesIsFilter(rules);
  }

  /** `OnRules` is the filter on the on-types, stated on `Seqs.Filter`. */
  lemma {:induction false} OnRulesIsFilter(rules: seq<Entity>)
    ensures OnRules(rules).Success? <==> forall i :: 0 <= i < |rules| ==> RuleType(rules[i]).Success?
    ensures OnRules(rules).Success? ==>
      OnRules(rules).value == Seqs.Filter(rules, Recording.OnBy(TypeOrOff))
  {
    if |rules| > 0 {
      OnRulesIsFilter(rules[1..]);
      assert forall i :: 0 < i < |rules| ==> rules[1..][i - 1] == rules[i];
      if RuleType(rules[0]).Success? && OnRules(rules[1..]).Success? {
        var t := RuleType(rules[0]).value;
        assert TypeOrOff(rules[0]) == t;
        assert Recording.OnBy(TypeOrOff)(rules[0]) == Recording.IsOn(t);
        assert [rules[0]] + rules[1..] == rules;
        Seqs.FilterCons(rules[0], rules[1..], Recording.OnBy(TypeOrOff));
      }
    }
  }

  /** `iter(rec_rule_list)`. */
  function NonTemplateRecRules(list: Entity): Result<seq<Entity>>
  {
    var rules :- AllRecRules(list);
    OnRules(rules)
  }
}
