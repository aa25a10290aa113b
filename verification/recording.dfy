/** Recording-rule types (`RecordingType`) and the rule list's filtering of
    the rules whose type is not on, namely override, template and
    not-recording rules (`RecRuleList.non_template_rec_rules`). */
module Recording {

  import opened Results
  import Seqs

  /** The recording types the backend reports, one per enum member. */
  datatype RecordingType =
    | SingleRecord
    | AllRecord
    | RecordOne
    | RecordDaily
    | RecordWeekly
    | OverrideRecording
    | RecordingTemplate
    | NotRecording

  /** The enum member's value: the backend's untranslated raw string. */
  function RawString(t: RecordingType): string
  {
    match t
    case SingleRecord => "Single Record"
    case AllRecord => "Record All"
    case RecordOne => "Record One"
    case RecordDaily => "Record Daily"
    case RecordWeekly => "Record Weekly"
    case OverrideRecording => "Override Recording"
    case RecordingTemplate => "Recording Template"
    case NotRecording => "Not Recording"
  }

  /** `RecordingType(s)`: the member whose value is `s`, `None` where the
      enum raises `ValueError`. */
  function FromRawString(s: string): (r: Option<RecordingType>)
  {
    if s == "Single Record" then Some(SingleRecord)
    else if s == "Record All" then Some(AllRecord)
    else if s == "Record One" then Some(RecordOne)
    else if s == "Record Daily" then Some(RecordDaily)
    else if s == "Record Weekly" then Some(RecordWeekly)
    else if s == "Override Recording" then Some(OverrideRecording)
    else if s == "Recording Template" then Some(RecordingTemplate)
    else if s == "Not Recording" then Some(NotRecording)
    else None
  }

  /** Looking a member up by its value finds that member, and only a member's
      value is accepted. */
  lemma RawStringRoundTrip(t: RecordingType, s: string)
    ensures FromRawString(RawString(t)) == Some(t)
    ensures FromRawString(s) == Some(t) ==> s == RawString(t)
  {
  }

  /** `RecordingType.on()`: the types under which the backend records. */
  function OnTypes(): set<RecordingType>
  {
    {SingleRecord, AllRecord, RecordOne, RecordDaily, RecordWeekly}
  }

  /** `t.is_on`. */
  predicate IsOn(t: RecordingType)
  {
    t in OnTypes()
  }

  /** Exactly the override, template and not-recording types are off, so
      five of the eight types are on. */
  lemma IsOnExactly(t: RecordingType)
    ensures !IsOn(t) <==> t == OverrideRecording || t == RecordingTemplate || t == NotRecording
    ensures |OnTypes()| == 5
  {
  }

  /** Every recording type, as `set(cls)` lists the enum. */
  function AllTypes(): set<RecordingType>
  {
    {SingleRecord, AllRecord, RecordOne, RecordDaily, RecordWeekly,
     OverrideRecording, RecordingTemplate, NotRecording}
  }

  /** The right operand of `set(cls) - ...` in `RecordingType.off`: the
      classmethod `on` itself, or the set its call returns. */
  datatype OnOperand = OnMethod | OnCalled

  /** Python's `-` with a set on the left: a set difference when the right
      operand is a set, a `TypeError` when it is a method object. */
  function Difference(all: set<RecordingType>, rhs: OnOperand): (r: Result<set<RecordingType>>)
    ensures r.Success? <==> rhs == OnCalled
    ensures r.Success? ==> forall t :: t in r.value <==> t in all && !IsOn(t)
  {
    match rhs
    case OnMethod => Failure(OperandTypeError("-"))
    case OnCalled => Success(all - OnTypes())
  }

  /** `RecordingType.off()` as written: it subtracts the method `cls.on`
      rather than its result. */
  function OffAsWritten(): Result<set<RecordingType>>
  {
    Difference(AllTypes(), OnMethod)
  }

  /** `RecordingType.off()` as evidently intended: every type not on. */
  function Off(): set<RecordingType>
  {
    Difference(AllTypes(), OnCalled).value
  }

  /** As written, `off()` (and so `is_off`) raises for every type. */
  lemma OffAsWrittenRaises()
    ensures OffAsWritten() == Failure(OperandTypeError("-"))
  {
  }

  /** As intended, a type is off exactly when it is not on: the override,
      template and not-recording types, three of the eight. */
  lemma OffComplement(t: RecordingType)
    ensures t in Off() <==> !IsOn(t)
    ensures Off() == {OverrideRecording, RecordingTemplate, NotRecording}
    ensures Off() !! OnTypes() && Off() + OnTypes() == AllTypes()
  {
    assert t in AllTypes();
    assert Off() == AllTypes() - OnTypes();
  }

  /** The test `non_template_rec_rules` keeps a rule by: its type is on. */
  function OnBy<R>(typeOf: R -> RecordingType): R -> bool
  {
    t => IsOn(typeOf(t))
  }

  /** `RecRuleList.non_template_rec_rules` (and so iterating the list): the
      rules whose `Type` is on, each as often as listed, in their original
      order. `typeOf` reads a rule's `Type`. */
  function NonTemplateRules<R(!new)>(rules: seq<R>, typeOf: R -> RecordingType): (r: seq<R>)
    ensures Seqs.IsSubsequence(r, rules)
    ensures forall i :: 0 <= i < |r| ==> IsOn(typeOf(r[i]))
    ensures forall i :: 0 <= i < |rules| && IsOn(typeOf(rules[i])) ==> rules[i] in r
    ensures forall x :: multiset(r)[x] == if IsOn(typeOf(x)) then multiset(rules)[x] else 0
  {
    Seqs.FilterMultiset(rules, OnBy(typeOf));
    Seqs.FilterIsSubsequence(rules, OnBy(typeOf));
    Seqs.FilterMember(rules, OnBy(typeOf));
    Seqs.Filter(rules, OnBy(typeOf))
  }

  /** Filtering an already filtered list changes nothing. */
  lemma NonTemplateRulesIdempotent<R(!new)>(rules: seq<R>, typeOf: R -> RecordingType)
    ensures NonTemplateRules(NonTemplateRules(rules, typeOf), typeOf) == NonTemplateRules(rules, typeOf)
  {
    Seqs.FilterIdempotent(rules, OnBy(typeOf));
  }

  /** A list whose rules are all on is yielded whole; one whose rules are all
      off yields nothing. */
  lemma NonTemplateRulesExtremes<R(!new)>(rules: seq<R>, typeOf: R -> RecordingType)
    ensures (forall i :: 0 <= i < |rules| ==> IsOn(typeOf(rules[i]))) ==>
      NonTemplateRules(rules, typeOf) == rules
    ensures (forall i :: 0 <= i < |rules| ==> !IsOn(typeOf(rules[i]))) ==>
      NonTemplateRules(rules, typeOf) == []
  {
    if forall i :: 0 <= i < |rules| ==> IsOn(typeOf(rules[i])) {
      Seqs.FilterAll(rules, OnBy(typeOf));
    }
    if forall i :: 0 <= i < |rules| ==> !IsOn(typeOf(rules[i])) {
      Seqs.FilterNone(rules, OnBy(typeOf));
    }
  }
}
