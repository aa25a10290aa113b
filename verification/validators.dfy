/** Validator declarations as the client writes them: an ordered list of
    named fields, each naming the coercion class applied to it. What the
    coercion classes do to a value belongs to the `vtypes` library, which is
    not part of this model; here a validator is only its field list, and
    `remove` and `add` act on that list. */
module Validators {

  import opened Results
  import Seqs

  /** The coercion classes the declarations name. */
  datatype VType =
    | VString
    | VInt
    | VUnsignedInt
    | VBool
    | VDateTime
    | VTime
    | VEnum
    | VList
    | VValidatorDict

  /** One keyword argument of `Validator(...)`: `name=VType(required=...)`. */
  datatype Field = Field(name: string, vtype: VType, required: bool)

  type Validator = seq<Field>

  /** The field names a validator declares. */
  function Names(v: Validator): set<string>
  {
    set i | 0 <= i < |v| :: v[i].name
  }

  /** The names of `fields`, in order. */
  function FieldNames(fields: seq<Field>): (r: seq<string>)
    ensures |r| == |fields| && forall i :: 0 <= i < |r| ==> r[i] == fields[i].name
  {
    seq(|fields|, i requires 0 <= i < |fields| => fields[i].name)
  }

  /** The first of `names` that `p` holds of. */
  function First(names: seq<string>, p: string -> bool): (r: string)
    requires exists i :: 0 <= i < |names| && p(names[i])
    ensures p(r)
    ensures exists k :: 0 <= k < |names| && names[k] == r && forall j :: 0 <= j < k ==> !p(names[j])
  {
    if p(names[0]) then names[0]
    else
      assert exists i :: 0 <= i < |names[1..]| && p(names[1..][i]) by {
        var i :| 0 <= i < |names| && p(names[i]);
        assert names[1..][i - 1] == names[i];
      }
      var r := First(names[1..], p);
      assert exists k :: 0 <= k < |names| && names[k] == r && forall j :: 0 <= j < k ==> !p(names[j]) by {
        var k :| 0 <= k < |names[1..]| && names[1..][k] == r && forall j :: 0 <= j < k ==> !p(names[1..][j]);
        assert forall j :: 1 <= j < k + 1 ==> names[j] == names[1..][j - 1];
      }
      r
  }

  /** The test `remove` keeps a field by. */
  function NotNamed(names: set<string>): Field -> bool
  {
    (f: Field) => f.name !in names
  }

  /** `validator.remove(*names)`: the fields not named, in declared order;
      naming a field the validator does not declare fails, reporting the
      first such name. */
  function Remove(v: Validator, names: seq<string>): (r: Result<Validator>)
  {
    if forall i :: 0 <= i < |names| ==> names[i] in Names(v) then
      Success(Seqs.Filter(v, NotNamed(set i | 0 <= i < |names| :: names[i])))
    else
      Failure(FieldMissing(First(names, (n: string) => n !in Names(v))))
  }

  /** `validator.add(**fields)`: the given fields follow the declared ones;
      adding a name the validator already declares fails, reporting the first
      such name. */
  function Add(v: Validator, fields: seq<Field>): (r: Result<Validator>)
  {
    if forall i :: 0 <= i < |fields| ==> fields[i].name !in Names(v) then Success(v + fields)
    else Failure(FieldExists(First(FieldNames(fields), (n: string) => n in Names(v))))
  }

  /** Keeping the fields not in `gone` drops exactly those names and keeps
      every other field, with its declaration, in order. */
  lemma FilterNames(v: Validator, gone: set<string>)
    ensures Names(Seqs.Filter(v, NotNamed(gone))) == Names(v) - gone
    ensures forall i :: 0 <= i < |v| && v[i].name !in gone ==> v[i] in Seqs.Filter(v, NotNamed(gone))
    ensures Seqs.IsSubsequence(Seqs.Filter(v, NotNamed(gone)), v)
  {
    var r := Seqs.Filter(v, NotNamed(gone));
    Seqs.FilterMember(v, NotNamed(gone));
    Seqs.FilterIsSubsequence(v, NotNamed(gone));
    forall n | n in Names(v) - gone
      ensures n in Names(r)
    {
      var i :| 0 <= i < |v| && v[i].name == n;
      assert v[i] in r;
      var j :| 0 <= j < |r| && r[j] == v[i];
      assert r[j].name == n;
    }
    forall n | n in Names(r)
      ensures n in Names(v) - gone
    {
      var j :| 0 <= j < |r| && r[j].name == n;
      assert r[j] in v;
      var i :| 0 <= i < |v| && v[i] == r[j];
      assert v[i].name == n;
    }
  }

  /** A failed removal names the first undeclared name. */
  lemma RemoveFailure(v: Validator, names: seq<string>)
    requires Remove(v, names).Failure?
    ensures exists k :: 0 <= k < |names| && Remove(v, names).error == FieldMissing(names[k]) && names[k] !in Names(v)
                     && forall j :: 0 <= j < k ==> names[j] in Names(v)
  {
    var p := (n: string) => n !in Names(v);
    var r := First(names, p);
    var k :| 0 <= k < |names| && names[k] == r && forall j :: 0 <= j < k ==> !p(names[j]);
    assert forall j :: 0 <= j < k ==> names[j] in Names(v);
  }

  /** Removing fails exactly when a name is not declared, and then names the
      first such; otherwise it drops exactly the named fields and keeps every
      other field, with its declaration, in order. */
  lemma RemoveSpec(v: Validator, names: seq<string>)
    ensures Remove(v, names).Success? <==> forall i :: 0 <= i < |names| ==> names[i] in Names(v)
    ensures Remove(v, names).Failure? ==>
      exists k :: 0 <= k < |names| && Remove(v, names).error == FieldMissing(names[k]) && names[k] !in Names(v)
        && forall j :: 0 <= j < k ==> names[j] in Names(v)
    ensures Remove(v, names).Success? ==>
      && Names(Remove(v, names).value) == Names(v) - (set i | 0 <= i < |names| :: names[i])
      && (forall i :: 0 <= i < |v| && v[i].name !in names ==> v[i] in Remove(v, names).value)
      && Seqs.IsSubsequence(Remove(v, names).value, v)
  {
    var gone := set i | 0 <= i < |names| :: names[i];
    FilterNames(v, gone);
    if Remove(v, names).Failure? {
      RemoveFailure(v, names);
    }
    forall i | 0 <= i < |v| && v[i].name !in names
      ensures v[i].name !in gone
    {
    }
  }

  /** Appending fields keeps the declared ones as a prefix and declares the
      old names and the appended ones. */
  lemma AppendNames(v: Validator, fields: seq<Field>)
    ensures Names(v + fields) == Names(v) + Names(fields)
    ensures (v + fields)[..|v|] == v
    ensures forall i :: 0 <= i < |fields| ==> fields[i] in v + fields
  {
    var r := v + fields;
    assert r[..|v|] == v;
    forall n | n in Names(r)
      ensures n in Names(v) + Names(fields)
    {
      var i :| 0 <= i < |r| && r[i].name == n;
      if i >= |v| {
        assert r[i] == fields[i - |v|];
      }
    }
    forall n | n in Names(v) + Names(fields)
      ensures n in Names(r)
    {
      if n in Names(fields) {
        var i :| 0 <= i < |fields| && fields[i].name == n;
        assert r[|v| + i] == fields[i];
      } else {
        var i :| 0 <= i < |v| && v[i].name == n;
        assert r[i] == v[i];
      }
    }
    forall i | 0 <= i < |fields|
      ensures fields[i] in r
    {
      assert r[|v| + i] == fields[i];
    }
  }

  /** A failed addition names the first field already declared. */
  lemma AddFailure(v: Validator, fields: seq<Field>)
    requires Add(v, fields).Failure?
    ensures exists k :: 0 <= k < |fields| && Add(v, fields).error == FieldExists(fields[k].name) && fields[k].name in Names(v)
                     && forall j :: 0 <= j < k ==> fields[j].name !in Names(v)
  {
    var p := (n: string) => n in Names(v);
    var names := FieldNames(fields);
    var r := First(names, p);
    var k :| 0 <= k < |names| && names[k] == r && forall j :: 0 <= j < k ==> !p(names[j]);
    assert forall j :: 0 <= j < k ==> fields[j].name !in Names(v);
  }

  /** Adding fails exactly when an added name is already declared, and then
      names the first such; otherwise the declared fields come first,
      unchanged, and the added fields follow, so the names are the old ones
      and the added ones. */
  lemma AddSpec(v: Validator, fields: seq<Field>)
    ensures Add(v, fields).Success? <==> Names(v) !! Names(fields)
    ensures Add(v, fields).Failure? ==>
      exists k :: 0 <= k < |fields| && Add(v, fields).error == FieldExists(fields[k].name) && fields[k].name in Names(v)
        && forall j :: 0 <= j < k ==> fields[j].name !in Names(v)
    ensures Add(v, fields).Success? ==>
      && Names(Add(v, fields).value) == Names(v) + Names(fields)
      && Add(v, fields).value[..|v|] == v
      && (forall i :: 0 <= i < |fields| ==> fields[i] in Add(v, fields).value)
  {
    AppendNames(v, fields);
    if Add(v, fields).Failure? {
      AddFailure(v, fields);
      var i :| 0 <= i < |fields| && fields[i].name in Names(v);
      assert fields[i].name in Names(fields);
    }
  }

  /** Adding fields and then removing the same names gives back the original
      validator, field for field and in order. */
  lemma AddThenRemove(v: Validator, fields: seq<Field>)
    requires Add(v, fields).Success?
    ensures Remove(Add(v, fields).value, FieldNames(fields)) == Success(v)
  {
    var added := Add(v, fields).value;
    var names := FieldNames(fields);
    var gone := set i | 0 <= i < |names| :: names[i];
    AddSpec(v, fields);
    forall i | 0 <= i < |names|
      ensures names[i] in Names(added)
    {
      assert fields[i].name in Names(fields);
    }
    forall i | 0 <= i < |v|
      ensures NotNamed(gone)(v[i])
    {
      assert v[i].name in Names(v);
    }
    forall i | 0 <= i < |fields|
      ensures !NotNamed(gone)(fields[i])
    {
      assert names[i] == fields[i].name;
    }
    assert added == v + fields;
    Seqs.FilterConcat(v, fields, NotNamed(gone));
    Seqs.FilterAll(v, NotNamed(gone));
    Seqs.FilterNone(fields, NotNamed(gone));
    assert v + [] == v;
    assert Remove(added, names) == Success(Seqs.Filter(added, NotNamed(gone)));
  }

  /** The `i`-th keyword argument of `RecRule.validator`. */
  function RecRuleField(i: nat): Field
    requires i < 46
  {
    if i == 0 then Field("Id", VInt, true)
    else if i == 1 then Field("ParentId", VInt, true)
    else if i == 2 then Field("Inactive", VBool, true)
    else if i == 3 then Field("Title", VString, true)
    else if i == 4 then Field("SubTitle", VString, true)
    else if i == 5 then Field("Description", VString, true)
    else if i == 6 then Field("Season", VUnsignedInt, true)
    else if i == 7 then Field("Episode", VUnsignedInt, true)
    else if i == 8 then Field("Category", VString, true)
    else if i == 9 then Field("StartTime", VDateTime, false)
    else if i == 10 then Field("EndTime", VDateTime, false)
    else if i == 11 then Field("SeriesId", VString, true)
    else if i == 12 then Field("ProgramId", VString, true)
    else if i == 13 then Field("Inetref", VString, true)
    else if i == 14 then Field("ChanId", VInt, true)
    else if i == 15 then Field("CallSign", VString, true)
    else if i == 16 then Field("FindDay", VInt, true)
    else if i == 17 then Field("FindTime", VTime, false)
    else if i == 18 then Field("Type", VEnum, true)
    else if i == 19 then Field("SearchType", VString, true)
    else if i == 20 then Field("RecPriority", VInt, true)
    else if i == 21 then Field("PreferredInput", VUnsignedInt, true)
    else if i == 22 then Field("StartOffset", VInt, true)
    else if i == 23 then Field("EndOffset", VInt, true)
    else if i == 24 then Field("DupMethod", VString, true)
    else if i == 25 then Field("DupIn", VString, true)
    else if i == 26 then Field("Filter", VUnsignedInt, true)
    else if i == 27 then Field("RecProfile", VString, true)
    else if i == 28 then Field("RecGroup", VString, true)
    else if i == 29 then Field("StorageGroup", VString, true)
    else if i == 30 then Field("PlayGroup", VString, true)
    else if i == 31 then Field("AutoExpire", VBool, true)
    else if i == 32 then Field("MaxEpisodes", VInt, true)
    else if i == 33 then Field("MaxNewest", VBool, true)
    else if i == 34 then Field("AutoCommflag", VBool, true)
    else if i == 35 then Field("AutoTranscode", VBool, true)
    else if i == 36 then Field("AutoMetaLookup", VBool, true)
    else if i == 37 then Field("AutoUserJob1", VBool, true)
    else if i == 38 then Field("AutoUserJob2", VBool, true)
    else if i == 39 then Field("AutoUserJob3", VBool, true)
    else if i == 40 then Field("AutoUserJob4", VBool, true)
    else if i == 41 then Field("Transcoder", VInt, true)
    else if i == 42 then Field("NextRecording", VDateTime, false)
    else if i == 43 then Field("LastRecorded", VDateTime, false)
    else if i == 44 then Field("LastDeleted", VDateTime, false)
    else Field("AverageDelay", VInt, true)
  }

  /** `RecRule.validator`. */
  function RecRuleValidator(): (v: Validator)
    ensures |v| == 46 && forall i :: 0 <= i < 46 ==> v[i] == RecRuleField(i)
  {
    seq(46, i requires 0 <= i < 46 => RecRuleField(i))
  }

  /** `ProgramGuide.args['_guide']`, with its nested validators left out. */
  const GuideValidator: Validator := [
    Field("AsOf", VString, true),
    Field("EndTime", VString, true),
    Field("ProtoVer", VString, true),
    Field("StartTime", VString, true),
    Field("StartIndex", VString, true),
    Field("Version", VString, true),
    Field("TotalAvailable", VString, true),
    Field("Count", VString, true),
    Field("Channels", VList, true),
    Field("Details", VString, true)
  ]

  /** The names `AddRecordSchedule.args` removes from `RecRule.validator`, in
      the order the call names them. */
  const AddRecordScheduleRemovedArgs: seq<string> :=
    ["LastDeleted", "LastRecorded", "NextRecording", "CallSign", "Id", "AverageDelay", "SubTitle"]

  /** The same names, as a set. */
  const AddRecordScheduleRemoved: set<string> :=
    {"LastDeleted", "LastRecorded", "NextRecording", "CallSign", "Id", "AverageDelay", "SubTitle"}

  /** The fields `AddRecordSchedule.args` adds. */
  const AddRecordScheduleAdded: seq<Field> := [Field("Station", VString, true), Field("Subtitle", VString, true)]

  /** The expression `AddRecordSchedule`'s class body evaluates for `args`:
      `RecRule.validator.remove(...).add(...)`. */
  function AddRecordScheduleDerivation(): Result<Validator>
  {
    var kept :- Remove(RecRuleValidator(), AddRecordScheduleRemovedArgs);
    Add(kept, AddRecordScheduleAdded)
  }

  /** `AddRecordSchedule.args`: the validator the derivation yields. */
  function AddRecordScheduleArgs(): (v: Validator)
    ensures AddRecordScheduleDerivation() == Success(v)
  {
    AddRecordScheduleDerives();
    AddRecordScheduleDerivation().value
  }

  /** Every removed name is a field of `RecRule.validator`, as are `Type` and
      `Filter`; neither added name is. */
  lemma RecRuleFields()
    ensures AddRecordScheduleRemoved <= Names(RecRuleValidator())
    ensures "Type" in Names(RecRuleValidator()) && "Filter" in Names(RecRuleValidator())
    ensures "Station" !in Names(RecRuleValidator()) && "Subtitle" !in Names(RecRuleValidator())
  {
    var v := RecRuleValidator();
    assert v[0].name == "Id";
    assert v[4].name == "SubTitle";
    assert v[15].name == "CallSign";
    assert v[18].name == "Type";
    assert v[26].name == "Filter";
    assert v[42].name == "NextRecording";
    assert v[43].name == "LastRecorded";
    assert v[44].name == "LastDeleted";
    assert v[45].name == "AverageDelay";
    forall i | 0 <= i < 46
      ensures v[i].name != "Station" && v[i].name != "Subtitle"
    {
    }
  }

  /** The derivation in `AddRecordSchedule`'s class body does not fail:
      every name it removes is declared and neither name it adds is. */
  lemma AddRecordScheduleDerives()
    ensures AddRecordScheduleDerivation().Success?
  {
    var v := RecRuleValidator();
    var removed := AddRecordScheduleRemovedArgs;
    RecRuleFields();
    assert (set i | 0 <= i < |removed| :: removed[i]) == AddRecordScheduleRemoved by {
      assert removed[0] == "LastDeleted" && removed[1] == "LastRecorded" && removed[2] == "NextRecording";
      assert removed[3] == "CallSign" && removed[4] == "Id" && removed[5] == "AverageDelay" && removed[6] == "SubTitle";
    }
    RemoveSpec(v, removed);
    var kept := Remove(v, removed).value;
    AddedNames();
    AddSpec(kept, AddRecordScheduleAdded);
  }

  /** Removing some names and then adding fields, when both succeed, declares
      the names not removed and the names added. */
  lemma RemoveAddNames(v: Validator, removed: seq<string>, added: seq<Field>)
    requires Remove(v, removed).Success?
    requires Add(Remove(v, removed).value, added).Success?
    ensures Names(Add(Remove(v, removed).value, added).value) ==
      (Names(v) - (set i | 0 <= i < |removed| :: removed[i])) + Names(added)
  {
    RemoveSpec(v, removed);
    AddSpec(Remove(v, removed).value, added);
  }

  /** The added fields are named `Station` and `Subtitle`, neither of them
      a removed name. */
  lemma AddedNames()
    ensures Names(AddRecordScheduleAdded) == {"Station", "Subtitle"}
    ensures AddRecordScheduleRemoved !! Names(AddRecordScheduleAdded)
  {
    assert AddRecordScheduleAdded[0].name == "Station";
    assert AddRecordScheduleAdded[1].name == "Subtitle";
  }

  /** `AddRecordSchedule.args` declares exactly the `RecRule` fields less the
      seven removed, plus the added ones, and none of the removed names. */
  lemma AddRecordScheduleNames()
    ensures Names(AddRecordScheduleArgs()) ==
      (Names(RecRuleValidator()) - AddRecordScheduleRemoved) + Names(AddRecordScheduleAdded)
    ensures AddRecordScheduleRemoved !! Names(AddRecordScheduleArgs())
  {
    var removed := AddRecordScheduleRemovedArgs;
    AddRecordScheduleDerives();
    assert (set i | 0 <= i < |removed| :: removed[i]) == AddRecordScheduleRemoved by {
      assert removed[0] == "LastDeleted" && removed[1] == "LastRecorded" && removed[2] == "NextRecording";
      assert removed[3] == "CallSign" && removed[4] == "Id" && removed[5] == "AverageDelay" && removed[6] == "SubTitle";
    }
    RemoveAddNames(RecRuleValidator(), removed, AddRecordScheduleAdded);
    AddedNames();
  }
}
