/** The WSDL-to-validator code generator (`wsdl/scrape_wsdl.py`): each
    `xs:element` of a complex type becomes one keyword argument
    `name=VType(kwargs)`, and a complex type becomes a printable
    `Validator(...)` block. Parsing the XML is not modelled: an element is
    given as its attribute map. */
module ScrapeWsdl {

  import opened Results
  import Text
  import Seqs
  import Validators

  /** An element's attributes, `{k: v for k, v in element.attributes.items()}`. */
  type Attrs = map<string, string>

  /** `TYPE_MAPPING`: the XML Schema types with a coercion class. */
  function TypeMapping(typename: string): Option<string>
  {
    if typename == "xs:int" then Some("VInt")
    else if typename == "xs:long" then Some("VInt")
    else if typename == "xs:boolean" then Some("VBool")
    else if typename == "xs:string" then Some("VString")
    else if typename == "xs:unsignedInt" then Some("VUnsignedInt")
    else if typename == "xs:dateTime" then Some("VDateTime")
    else if typename == "xs:time" then Some("VTime")
    else None
  }

  /** `UNKNOWN`: the class name written for an unmapped type. */
  const Unknown: string := "V???"

  /** `TYPE_MAPPING.get(typename, UNKNOWN)`. */
  function VClass(typename: string): string
  {
    match TypeMapping(typename)
    case Some(c) => c
    case None => Unknown
  }

  /** The name the generated code uses for a coercion class. */
  function ClassName(t: Validators.VType): string
  {
    match t
    case VString => "VString"
    case VInt => "VInt"
    case VUnsignedInt => "VUnsignedInt"
    case VBool => "VBool"
    case VDateTime => "VDateTime"
    case VTime => "VTime"
    case VEnum => "VEnum"
    case VList => "VList"
    case VValidatorDict => "VValidatorDict"
  }

  /** The schema types `TYPE_MAPPING` lists. */
  const MappedTypes: set<string> :=
    {"xs:int", "xs:long", "xs:boolean", "xs:string", "xs:unsignedInt", "xs:dateTime", "xs:time"}

  /** Exactly the listed types are mapped, each to the name of a scalar
      coercion class; every other type is written as `V???`, which names no
      class. */
  lemma TypeMappingSpec(typename: string)
    ensures TypeMapping(typename).Some? <==> typename in MappedTypes
    ensures TypeMapping(typename).Some? ==>
      exists t: Validators.VType :: ClassName(t) == TypeMapping(typename).value &&
        t != Validators.VEnum && t != Validators.VList && t != Validators.VValidatorDict
    ensures typename !in MappedTypes ==> VClass(typename) == Unknown
    ensures forall t: Validators.VType :: ClassName(t) != Unknown
  {
    if TypeMapping(typename).Some? {
      var c := TypeMapping(typename).value;
      if c == "VInt" {
        assert ClassName(Validators.VInt) == c;
      } else if c == "VBool" {
        assert ClassName(Validators.VBool) == c;
      } else if c == "VString" {
        assert ClassName(Validators.VString) == c;
      } else if c == "VUnsignedInt" {
        assert ClassName(Validators.VUnsignedInt) == c;
      } else if c == "VDateTime" {
        assert ClassName(Validators.VDateTime) == c;
      } else {
        assert ClassName(Validators.VTime) == c;
      }
    }
  }

  /** `bool(arg_attrs.get('nillable'))`: the attribute is present and
      non-empty, whatever its text. */
  predicate Nillable(attrs: Attrs)
  {
    "nillable" in attrs && attrs["nillable"] != ""
  }

  /** `typename.split(':', 1)[1]` for a `tns:` type. */
  function ModelName(typename: string): (r: string)
    requires Text.StartsWith(typename, "tns:")
    ensures r == typename[4..]
  {
    Text.AfterFirstAt(typename, ':', 3);
    Text.AfterFirst(typename, ':').value
  }

  /** The order `sorted` puts the keyword strings in. */
  predicate KwargLe(a: string, b: string)
  {
    Text.LexLe(a, b)
  }

  /** `element_to_kwarg(arg_attrs)`: a missing `type` or `name` attribute
      is a `KeyError`, raised in that order. */
  function ElementToKwarg(attrs: Attrs): Result<string>
  {
    var optional := Nillable(attrs);
    if "type" !in attrs then Failure(KeyNotFound("type"))
    else
      var typename := attrs["type"];
      var vtype := VClass(typename);
      if "name" !in attrs then Failure(KeyNotFound("name"))
      else
        var name := attrs["name"];
        var vtype := if Text.StartsWith(typename, "tns:") then "VValidatorDict" else vtype;
        Success(name + "=" + vtype + "(" + Text.Join(Seqs.Sort(KwargList(optional, typename), KwargLe), ", ") + ")")
  }

  /** The keyword list `element_to_kwarg` builds before sorting:
      `required=False` for an optional element, then the nested validator
      of a `tns:` type. */
  function KwargList(optional: bool, typename: string): seq<string>
  {
    var flags := if optional then ["required=False"] else [];
    if Text.StartsWith(typename, "tns:") then flags + ["validator=" + ModelName(typename) + ".validator"] else flags
  }

  /** The keyword text of an element, case by case: `required=False` for a
      nillable element, then the nested validator of a `tns:` type. */
  function KwargText(optional: bool, model: Option<string>): string
  {
    match (optional, model)
    case (false, None) => ""
    case (true, None) => "required=False"
    case (false, Some(m)) => "validator=" + m + ".validator"
    case (true, Some(m)) => "required=False, validator=" + m + ".validator"
  }

  /** The class an element's line names: `VValidatorDict` for a `tns:`
      type, else its mapped class. */
  function ElementClass(typename: string): string
  {
    if Text.StartsWith(typename, "tns:") then "VValidatorDict" else VClass(typename)
  }

  /** The model name of a `tns:` type. */
  function ElementModel(typename: string): Option<string>
  {
    if Text.StartsWith(typename, "tns:") then Some(typename[4..]) else None
  }

  /** The sorted keyword list puts `required=False` before the validator. */
  lemma SortedKwargs(m: string)
    ensures Seqs.Sort(["required=False", "validator=" + m + ".validator"], KwargLe) ==
      ["required=False", "validator=" + m + ".validator"]
  {
    var a := "required=False";
    var b := "validator=" + m + ".validator";
    assert b[0] == 'v';
    assert !Text.LexLess(b, a);
    assert Seqs.Sort([b], KwargLe) == [b];
    assert [a, b][1..] == [b];
  }

  /** The sorted, joined keyword list, case by case. */
  lemma KwargListText(optional: bool, typename: string)
    ensures Text.Join(Seqs.Sort(KwargList(optional, typename), KwargLe), ", ") ==
      KwargText(optional, ElementModel(typename))
  {
    if Text.StartsWith(typename, "tns:") {
      var v := "validator=" + typename[4..] + ".validator";
      if optional {
        SortedKwargs(typename[4..]);
        assert KwargList(optional, typename) == ["required=False", v];
        assert Text.Join(["required=False", v], ", ") == "required=False" + ", " + v;
      } else {
        assert KwargList(optional, typename) == [v];
      }
    }
  }

  /** An element converts exactly when it has both a `type` and a `name`;
      a missing `type` is reported first. A converted element is
      `name=Class(kwargs)`, where the keywords are `required=False` exactly
      for a nillable element and a nested validator exactly for a `tns:`
      type. */
  lemma ElementToKwargSpec(attrs: Attrs)
    ensures ElementToKwarg(attrs).Success? <==> "type" in attrs && "name" in attrs
    ensures "type" !in attrs ==> ElementToKwarg(attrs) == Failure(KeyNotFound("type"))
    ensures "type" in attrs && "name" !in attrs ==> ElementToKwarg(attrs) == Failure(KeyNotFound("name"))
    ensures "type" in attrs && "name" in attrs ==>
      ElementToKwarg(attrs).value ==
        attrs["name"] + "=" + ElementClass(attrs["type"]) + "(" +
        KwargText(Nillable(attrs), ElementModel(attrs["type"])) + ")"
  {
    if "type" in attrs && "name" in attrs {
      KwargListText(Nillable(attrs), attrs["type"]);
    }
  }

  /** A nillable element is generated as optional, whatever the attribute
      says, and one without the attribute as required. */
  lemma NillableIsOptional(attrs: Attrs)
    requires "type" in attrs && "name" in attrs && !Text.StartsWith(attrs["type"], "tns:")
    ensures Nillable(attrs) ==>
      ElementToKwarg(attrs).value == attrs["name"] + "=" + VClass(attrs["type"]) + "(required=False)"
    ensures !Nillable(attrs) ==>
      ElementToKwarg(attrs).value == attrs["name"] + "=" + VClass(attrs["type"]) + "()"
    ensures "nillable" in attrs && attrs["nillable"] == "false" ==>
      ElementToKwarg(attrs).value == attrs["name"] + "=" + VClass(attrs["type"]) + "(required=False)"
  {
    ElementToKwargSpec(attrs);
  }

  /** The argument lines of a block, `'    {},'.format(element_to_kwarg(attrs))`
      for each element in order; the first failing element's error ends
      the list comprehension. */
  function KwargLines(elements: seq<Attrs>): Result<seq<string>>
  {
    if |elements| == 0 then Success([])
    else
      var kwarg :- ElementToKwarg(elements[0]);
      var rest :- KwargLines(elements[1..]);
      Success(["    " + kwarg + ","] + rest)
  }

  /** The lines are produced exactly when every element converts, one line
      per element in order; otherwise the first failing element's error is
      returned. */
  lemma {:induction false} KwargLinesSpec(elements: seq<Attrs>)
    ensures KwargLines(elements).Success? <==>
      forall i :: 0 <= i < |elements| ==> ElementToKwarg(elements[i]).Success?
    ensures KwargLines(elements).Success? ==>
      |KwargLines(elements).value| == |elements| &&
      forall i :: 0 <= i < |elements| ==>
        KwargLines(elements).value[i] == "    " + ElementToKwarg(elements[i]).value + ","
    ensures forall i :: (0 <= i < |elements| && ElementToKwarg(elements[i]).Failure? &&
                         (forall j :: 0 <= j < i ==> ElementToKwarg(elements[j]).Success?)) ==>
      KwargLines(elements) == Failure(ElementToKwarg(elements[i]).error)
  {
    if |elements| > 0 {
      KwargLinesSpec(elements[1..]);
      assert forall i :: 0 < i < |elements| ==> elements[1..][i - 1] == elements[i];
      if ElementToKwarg(elements[0]).Success? && KwargLines(elements[1..]).Success? {
        var rest := KwargLines(elements[1..]).value;
        forall i | 0 <= i < |elements|
          ensures KwargLines(elements).value[i] == "    " + ElementToKwarg(elements[i]).value + ","
        {
          if i > 0 {
            assert KwargLines(elements).value[i] == rest[i - 1];
          }
        }
      }
    }
  }

  /** `printable_validator(name, args_attrs)`: a header comment, the
      opening `Validator(`, one line per element and the closing `)`,
      joined by newlines. */
  function PrintableValidator(name: string, elements: seq<Attrs>): Result<string>
  {
    var lines :- KwargLines(elements);
    Success(Text.Join(["# Type: " + name, "Validator("] + lines + [")"], "\n"))
  }

  /** Joining pieces free of `c` with a separator free of `c` gives text
      free of `c`. */
  lemma {:induction false} JoinAvoids(xs: seq<string>, sep: string, c: char)
    requires forall i :: 0 <= i < |xs| ==> c !in xs[i]
    requires c !in sep
    ensures c !in Text.Join(xs, sep)
  {
    if |xs| > 1 {
      JoinAvoids(xs[1..], sep, c);
      assert forall i :: 0 < i < |xs| ==> xs[1..][i - 1] == xs[i];
    }
  }

  /** The class an element's line names holds no newline. */
  lemma ClassAvoidsNewline(typename: string)
    ensures '\n' !in ElementClass(typename)
  {
    if !Text.StartsWith(typename, "tns:") {
      match TypeMapping(typename)
      case Some(c) =>
      case None =>
    }
  }

  /** The keyword text holds no newline when the model name holds none. */
  lemma KwargTextAvoidsNewline(optional: bool, model: Option<string>)
    requires model.Some? ==> '\n' !in model.value
    ensures '\n' !in KwargText(optional, model)
  {
  }

  /** A converted element's line holds no newline when its `name` and
      `type` attributes hold none. */
  lemma KwargAvoidsNewline(attrs: Attrs)
    requires "type" in attrs && "name" in attrs
    requires '\n' !in attrs["name"] && '\n' !in attrs["type"]
    ensures '\n' !in ElementToKwarg(attrs).value
  {
    ElementToKwargSpec(attrs);
    var typename := attrs["type"];
    ClassAvoidsNewline(typename);
    var model := ElementModel(typename);
    if model.Some? {
      assert forall k :: 0 <= k < |model.value| ==> model.value[k] == typename[k + 4];
    }
    KwargTextAvoidsNewline(Nillable(attrs), model);
  }

  /** The argument lines hold no newline when no element's `name` or
      `type` does. */
  lemma KwargLinesAvoidNewline(elements: seq<Attrs>)
    requires KwargLines(elements).Success?
    requires forall i :: 0 <= i < |elements| ==>
      ("type" in elements[i] ==> '\n' !in elements[i]["type"]) &&
      ("name" in elements[i] ==> '\n' !in elements[i]["name"])
    ensures forall i :: 0 <= i < |KwargLines(elements).value| ==> '\n' !in KwargLines(elements).value[i]
  {
    KwargLinesSpec(elements);
    var body := KwargLines(elements).value;
    forall i | 0 <= i < |body|
      ensures '\n' !in body[i]
    {
      ElementToKwargSpec(elements[i]);
      KwargAvoidsNewline(elements[i]);
    }
  }

  /** With no newline in the type name or in any element's `name` and
      `type`, the block splits back into n+3 lines: the header, the
      opening line, each element's line in order, and the closing line. */
  lemma PrintableValidatorLines(name: string, elements: seq<Attrs>)
    requires PrintableValidator(name, elements).Success?
    requires '\n' !in name
    requires forall i :: 0 <= i < |elements| ==>
      ("type" in elements[i] ==> '\n' !in elements[i]["type"]) &&
      ("name" in elements[i] ==> '\n' !in elements[i]["name"])
    ensures var lines := Text.Split(PrintableValidator(name, elements).value, '\n');
      |lines| == |elements| + 3 &&
      lines[0] == "# Type: " + name && lines[1] == "Validator(" && lines[|elements| + 2] == ")" &&
      forall i :: 0 <= i < |elements| ==>
        ElementToKwarg(elements[i]).Success? && lines[i + 2] == "    " + ElementToKwarg(elements[i]).value + ","
  {
    KwargLinesSpec(elements);
    KwargLinesAvoidNewline(elements);
    var body := KwargLines(elements).value;
    var all := ["# Type: " + name, "Validator("] + body + [")"];
    assert forall i :: 2 <= i < |all| - 1 ==> all[i] == body[i - 2];
    assert '\n' !in "Validator(" && '\n' !in ")" && '\n' !in "# Type: ";
    Text.SplitJoin(all, '\n');
  }
}
