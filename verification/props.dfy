/** Bit-flag property classes (`Props`, `VideoProps`): a class whose public
    integer constants name bits, and `decode`, which turns a bitmask into the
    set of names of the bits it has in common with each constant. */
module Props {

  import opened Results
  import Text
  import Seqs

  /** Python's `a & b` for `b >= 0`, with `a` in two's complement; Dafny's
      `/` and `%` by 2 floor like Python's `//` and `%`. */
  function BitAnd(a: int, b: nat): nat
    decreases b
  {
    if b == 0 then 0 else 2 * BitAnd(a / 2, b / 2) + (a % 2) * (b % 2)
  }

  function Pow2(k: nat): nat
  {
    if k == 0 then 1 else 2 * Pow2(k - 1)
  }

  /** Bit `k` of `a` in two's complement. */
  predicate Bit(a: int, k: nat)
    decreases k
  {
    if k == 0 then a % 2 == 1 else Bit(a / 2, k - 1)
  }

  /** ANDing with a single-bit mask tests exactly that bit. */
  lemma {:induction false} BitAndPow2(a: int, k: nat)
    ensures BitAnd(a, Pow2(k)) != 0 <==> Bit(a, k)
    decreases k
  {
    if k > 0 {
      BitAndPow2(a / 2, k - 1);
      assert Pow2(k) / 2 == Pow2(k - 1) && Pow2(k) % 2 == 0;
    }
  }

  /** One public class constant: its attribute name and its value. */
  datatype Flag = Flag(name: string, value: nat)

  /** `Props._attrs`: the names `dir(cls)` lists that do not start with `_`
      and are not `decode`, in `dir` order. */
  function Attrs(dir: seq<string>): (r: seq<string>)
    ensures Seqs.IsSubsequence(r, dir)
    ensures forall i :: 0 <= i < |r| ==> IsPublicConstant(r[i])
    ensures forall i :: 0 <= i < |dir| && IsPublicConstant(dir[i]) ==> dir[i] in r
    ensures forall x :: multiset(r)[x] == if IsPublicConstant(x) then multiset(dir)[x] else 0
  {
    Seqs.FilterMember(dir, IsPublicConstant);
    Seqs.FilterIsSubsequence(dir, IsPublicConstant);
    Seqs.FilterMultiset(dir, IsPublicConstant);
    Seqs.Filter(dir, IsPublicConstant)
  }

  /** `not name.startswith('_') and name != 'decode'`. */
  predicate IsPublicConstant(name: string)
  {
    !Text.StartsWith(name, "_") && name != "decode"
  }

  /** `_attrs` keeps a name of `dir` exactly when the name does not begin
      with `_` and is not `decode`. */
  lemma PublicWhenFirstNotUnderscore(dir: seq<string>, name: string)
    ensures name in Attrs(dir) <==> name in dir && (name == "" || name[0] != '_') && name != "decode"
  {
    if |name| > 0 {
      assert name[..1][0] == name[0];
    }
    if name in dir && IsPublicConstant(name) {
      var i :| 0 <= i < |dir| && dir[i] == name;
    }
  }

  /** The label `decode` reports for a flag: the text after the first `_`,
      lower-cased; `None` where `split('_', 1)[1]` raises. */
  function Label(name: string): (r: Option<string>)
  {
    match Text.AfterFirst(name, '_')
    case None => None
    case Some(rest) => Some(Text.Lower(rest))
  }

  lemma LabelFails(name: string)
    ensures Label(name).None? <==> '_' !in name
  {
    Text.AfterFirstSpec(name, '_');
  }

  /** `Props.decode(props)`: the labels of the flags whose value has a bit in
      common with `props`. Every flag's label is computed before its bit is
      checked, so a flag name without `_` fails whatever `props` is. */
  function Decode(flags: seq<Flag>, props: int): (r: Result<set<string>>)
  {
    if |flags| == 0 then Success({})
    else
      match Label(flags[0].name)
      case None => Failure(IndexOutOfRange)
      case Some(lbl) =>
        match Decode(flags[1..], props)
        case Failure(e) => Failure(e)
        case Success(rest) =>
          Success(if BitAnd(props, flags[0].value) != 0 then {lbl} + rest else rest)
  }

  /** `decode` fails exactly when some flag name has no `_`; otherwise it
      reports a flag's label exactly when the flag shares a bit with `props`. */
  lemma {:induction false} DecodeSpec(flags: seq<Flag>, props: int)
    ensures Decode(flags, props).Failure? <==> exists i :: 0 <= i < |flags| && '_' !in flags[i].name
    ensures Decode(flags, props).Success? ==>
      forall i :: 0 <= i < |flags| && BitAnd(props, flags[i].value) != 0 ==>
        Label(flags[i].name).Some? && Label(flags[i].name).value in Decode(flags, props).value
    ensures Decode(flags, props).Success? ==>
      forall n :: n in Decode(flags, props).value ==>
        exists i :: 0 <= i < |flags| && BitAnd(props, flags[i].value) != 0
                    && Label(flags[i].name) == Some(n)
  {
    if |flags| > 0 {
      LabelFails(flags[0].name);
      DecodeSpec(flags[1..], props);
      assert forall i :: 0 < i < |flags| ==> flags[i] == flags[1..][i - 1];
      var r := Decode(flags, props);
      if Label(flags[0].name).Some? && Decode(flags[1..], props).Failure? {
        var i :| 0 <= i < |flags[1..]| && '_' !in flags[1..][i].name;
        assert '_' !in flags[i + 1].name;
      }
      if r.Success? {
        var rest := Decode(flags[1..], props).value;
        forall n | n in r.value
          ensures exists i :: 0 <= i < |flags| && BitAnd(props, flags[i].value) != 0
                              && Label(flags[i].name) == Some(n)
        {
          if n in rest {
            var i :| 0 <= i < |flags[1..]| && BitAnd(props, flags[1..][i].value) != 0
                     && Label(flags[1..][i].name) == Some(n);
            assert flags[i + 1] == flags[1..][i];
          }
        }
      }
    }
  }

  lemma DecodeSucceeds(flags: seq<Flag>, props: int)
    requires forall i :: 0 <= i < |flags| ==> '_' in flags[i].name
    ensures Decode(flags, props).Success?
  {
    DecodeSpec(flags, props);
  }

  /** `VideoProps`' public constants, in the order `dir` lists them. */
  const VideoPropsFlags: seq<Flag> := [
    Flag("VID_1080", 16),
    Flag("VID_720", 8),
    Flag("VID_AVC", 4),
    Flag("VID_HDTV", 1),
    Flag("VID_UNKNOWN", 0),
    Flag("VID_WIDESCREEN", 2)
  ]

  /** The names of some flags, in order. */
  function FlagNames(flags: seq<Flag>): (r: seq<string>)
    ensures |r| == |flags| && forall i :: 0 <= i < |r| ==> r[i] == flags[i].name
  {
    seq(|flags|, i requires 0 <= i < |flags| => flags[i].name)
  }

  /** `dir(VideoProps)` sorts its names by code point, so upper-case `VID_`
      names precede every name beginning with `_` (`_attrs` and those
      inherited from `object`), which precede `decode`. Of these, `_attrs`
      keeps exactly the flags' names, in the order `decode` visits them. */
  lemma VideoPropsAttrs(internal: seq<string>)
    requires forall i :: 0 <= i < |internal| ==> Text.StartsWith(internal[i], "_")
    ensures Attrs(FlagNames(VideoPropsFlags) + internal + ["decode"]) == FlagNames(VideoPropsFlags)
  {
    var names := FlagNames(VideoPropsFlags);
    forall i | 0 <= i < |names|
      ensures IsPublicConstant(names[i])
    {
      assert names[i][0] == 'V';
    }
    Seqs.FilterConcat(names + internal, ["decode"], IsPublicConstant);
    Seqs.FilterConcat(names, internal, IsPublicConstant);
    Seqs.FilterAll(names, IsPublicConstant);
    Seqs.FilterNone(internal, IsPublicConstant);
    Seqs.FilterNone(["decode"], IsPublicConstant);
    assert names + [] + [] == names;
  }

  /** The label of a `VID_`-prefixed constant is the rest of its name,
      lower-cased. */
  lemma VidLabel(suffix: string)
    ensures Label("VID_" + suffix) == Some(Text.Lower(suffix))
  {
    var s := "VID_" + suffix;
    assert s[3] == '_' && s[..3] == "VID";
    Text.AfterFirstAt(s, '_', 3);
    assert s[4..] == suffix;
  }

  lemma Lower1080()
    ensures Text.Lower("1080") == "1080"
  {
  }

  lemma Label1080()
    ensures Label(VideoPropsFlags[0].name) == Some("1080")
  {
    VidLabel("1080");
    assert VideoPropsFlags[0].name == "VID_" + "1080";
    Lower1080();
  }

  lemma Lower720()
    ensures Text.Lower("720") == "720"
  {
  }

  lemma Label720()
    ensures Label(VideoPropsFlags[1].name) == Some("720")
  {
    VidLabel("720");
    assert VideoPropsFlags[1].name == "VID_" + "720";
    Lower720();
  }

  lemma LowerAvc()
    ensures Text.Lower("AVC") == "avc"
  {
  }

  lemma LabelAvc()
    ensures Label(VideoPropsFlags[2].name) == Some("avc")
  {
    VidLabel("AVC");
    assert VideoPropsFlags[2].name == "VID_" + "AVC";
    LowerAvc();
  }

  lemma LowerHdtv()
    ensures Text.Lower("HDTV") == "hdtv"
  {
  }

  lemma LabelHdtv()
    ensures Label(VideoPropsFlags[3].name) == Some("hdtv")
  {
    VidLabel("HDTV");
    assert VideoPropsFlags[3].name == "VID_" + "HDTV";
    LowerHdtv();
  }

  lemma LowerUnknown()
    ensures Text.Lower("UNKNOWN") == "unknown"
  {
  }

  lemma LabelUnknown()
    ensures Label(VideoPropsFlags[4].name) == Some("unknown")
  {
    VidLabel("UNKNOWN");
    assert VideoPropsFlags[4].name == "VID_" + "UNKNOWN";
    LowerUnknown();
  }

  lemma LowerWidescreen()
    ensures Text.Lower("WIDESCREEN") == "widescreen"
  {
  }

  lemma LabelWidescreen()
    ensures Label(VideoPropsFlags[5].name) == Some("widescreen")
  {
    VidLabel("WIDESCREEN");
    assert VideoPropsFlags[5].name == "VID_" + "WIDESCREEN";
    LowerWidescreen();
  }

  /** The labels `decode` computes for `VideoProps`' constants, in `dir`
      order. */
  const VideoPropsLabels: seq<string> := ["1080", "720", "avc", "hdtv", "unknown", "widescreen"]

  lemma VideoPropsLabelTable()
    ensures |VideoPropsLabels| == |VideoPropsFlags|
    ensures forall i :: 0 <= i < |VideoPropsFlags| ==> Label(VideoPropsFlags[i].name) == Some(VideoPropsLabels[i])
  {
    forall i | 0 <= i < |VideoPropsFlags|
      ensures Label(VideoPropsFlags[i].name) == Some(VideoPropsLabels[i])
    {
      if i == 0 {
        Label1080();
      } else if i == 1 {
        Label720();
      } else if i == 2 {
        LabelAvc();
      } else if i == 3 {
        LabelHdtv();
      } else if i == 4 {
        LabelUnknown();
      } else {
        LabelWidescreen();
      }
    }
  }

  /** `VideoProps.decode(props)`: every `VideoProps` constant has a `_`, so
      decoding never fails. */
  function VideoPropsList(props: int): set<string>
  {
    VideoPropsDecodes(props);
    Decode(VideoPropsFlags, props).value
  }

  lemma VideoPropsDecodes(props: int)
    ensures Decode(VideoPropsFlags, props).Success?
  {
    forall i | 0 <= i < |VideoPropsFlags|
      ensures '_' in VideoPropsFlags[i].name
    {
      assert VideoPropsFlags[i].name[3] == '_';
    }
    DecodeSucceeds(VideoPropsFlags, props);
  }

  /** Given the label of every flag, a label carried by exactly one flag is
      reported exactly when that flag shares a bit with `props`. */
  lemma DecodeReports(flags: seq<Flag>, labels: seq<string>, props: int, i: nat)
    requires Decode(flags, props).Success?
    requires |labels| == |flags|
    requires forall j :: 0 <= j < |flags| ==> Label(flags[j].name) == Some(labels[j])
    requires i < |labels|
    requires forall j :: 0 <= j < |labels| && labels[j] == labels[i] ==> j == i
    ensures labels[i] in Decode(flags, props).value <==> BitAnd(props, flags[i].value) != 0
  {
    DecodeSpec(flags, props);
  }

  /** Bit `k` of `props` is reported as the label of the `i`-th constant. */
  lemma VideoPropsBit(props: int, i: nat, k: nat)
    requires i < |VideoPropsFlags| && VideoPropsFlags[i].value == Pow2(k)
    requires forall j :: 0 <= j < |VideoPropsLabels| && VideoPropsLabels[j] == VideoPropsLabels[i] ==> j == i
    ensures VideoPropsLabels[i] in VideoPropsList(props) <==> Bit(props, k)
  {
    VideoPropsLabelTable();
    VideoPropsDecodes(props);
    DecodeReports(VideoPropsFlags, VideoPropsLabels, props, i);
    BitAndPow2(props, k);
  }

  /** `VideoProps.decode(props)` reports exactly the labels of the bits set in
      `props`: bit 0 is `hdtv`, 1 `widescreen`, 2 `avc`, 3 `720`, 4 `1080`. */
  lemma VideoPropsBits(props: int)
    ensures "hdtv" in VideoPropsList(props) <==> Bit(props, 0)
    ensures "widescreen" in VideoPropsList(props) <==> Bit(props, 1)
    ensures "avc" in VideoPropsList(props) <==> Bit(props, 2)
    ensures "720" in VideoPropsList(props) <==> Bit(props, 3)
    ensures "1080" in VideoPropsList(props) <==> Bit(props, 4)
  {
    assert Pow2(1) == 2 && Pow2(2) == 4 && Pow2(3) == 8 && Pow2(4) == 16;
    VideoPropsBit(props, 3, 0);
    VideoPropsBit(props, 5, 1);
    VideoPropsBit(props, 2, 2);
    VideoPropsBit(props, 1, 3);
    VideoPropsBit(props, 0, 4);
  }

  /** Only labels of non-zero flags can be reported: a zero flag shares no
      bit with anything. */
  lemma DecodeWithin(flags: seq<Flag>, props: int, allowed: set<string>)
    requires Decode(flags, props).Success?
    requires forall i :: 0 <= i < |flags| && flags[i].value != 0 ==>
      Label(flags[i].name).Some? && Label(flags[i].name).value in allowed
    ensures Decode(flags, props).value <= allowed
  {
    DecodeSpec(flags, props);
    forall n | n in Decode(flags, props).value
      ensures n in allowed
    {
      var i :| 0 <= i < |flags| && BitAnd(props, flags[i].value) != 0 && Label(flags[i].name) == Some(n);
      assert flags[i].value != 0;
    }
  }

  /** `VID_UNKNOWN` is zero, so `unknown` is never reported: every reported
      label is one of the five bit names. */
  lemma VideoPropsRange(props: int)
    ensures VideoPropsList(props) <= {"hdtv", "widescreen", "avc", "720", "1080"}
  {
    VideoPropsLabelTable();
    VideoPropsDecodes(props);
    DecodeWithin(VideoPropsFlags, props, {"hdtv", "widescreen", "avc", "720", "1080"});
  }

  /** `'hdtv' in VideoProps.decode(props)` holds exactly for odd `props`. */
  lemma HdtvIffOdd(props: int)
    ensures "hdtv" in VideoPropsList(props) <==> props % 2 == 1
  {
    VideoPropsBits(props);
  }

  /** `VideoProps.decode(props)` is exactly the set of the labels of the bits
      set in `props`. */
  lemma VideoPropsExact(props: int)
    ensures VideoPropsList(props) ==
      (if Bit(props, 0) then {"hdtv"} else {}) +
      (if Bit(props, 1) then {"widescreen"} else {}) +
      (if Bit(props, 2) then {"avc"} else {}) +
      (if Bit(props, 3) then {"720"} else {}) +
      (if Bit(props, 4) then {"1080"} else {})
  {
    VideoPropsBits(props);
    VideoPropsRange(props);
  }

  /** A high-definition-only mask decodes to `{"hdtv"}`. */
  lemma VideoPropsOfOne()
    ensures VideoPropsList(1) == {"hdtv"}
  {
    VideoPropsExact(1);
    assert Bit(1, 0) && !Bit(1, 1) && !Bit(1, 2) && !Bit(1, 3) && !Bit(1, 4);
  }
}
