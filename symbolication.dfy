/**
 * The symbolication codec of the backend session (measure/session.go):
 * `EncodeForSymbolication` lists every obfuscated string and stack of a
 * session as a unit with a fresh id and remembers in a codec map where each
 * unit came from; `DecodeFromSymbolication` writes the symbolicator's
 * answers back to those places.
 *
 * Fresh ids are the k-th answer of a generator `gen`; the frame marshaller
 * and unmarshaller are parameters. A Go panic (an index out of range) is `None`.
 */
module MeasureSymbolication {
  import opened Wrappers
  import opened Text
  import opened MeasureEvent
  import MeasureSession

  type Uuid = string

  /**
   * Where a unit came from and which of its parts it replaces. Each
   * boolean says that the matching transform field is `TransformSwap`.
   */
  datatype CodecMapVal = CodecMapVal(
    kind: string, event: int, exception: int, thread: int,
    frames: bool, exceptionType: bool, trace: bool,
    className: bool, parentActivity: bool, launchedActivity: bool)

  /** A fresh codec value: no transform, no exception and no thread (index -1). */
  const NewCodecMapVal := CodecMapVal("", 0, -1, -1, false, false, false, false, false, false)

  /** The zero value Go yields for an id missing from the map. */
  const ZeroCodecMapVal := CodecMapVal("", 0, 0, 0, false, false, false, false, false, false)

  datatype SymbolicationUnit = SymbolicationUnit(id: Uuid, values: seq<string>)

  /** A unit before it has been given an id. */
  datatype UnitSpec = UnitSpec(val: CodecMapVal, values: seq<string>)

  // ---------------------------------------------------------------------
  // Encoding

  /** The string fields the decoder may overwrite. */
  datatype SwapField =
    AppExitTrace | ActivityClassName | FragmentClassName | FragmentParentActivity
    | ColdLaunchedActivity | WarmLaunchedActivity | HotLaunchedActivity

  function FieldOf(e: EventField, f: SwapField): string
  {
    match f
    case AppExitTrace => e.appExit.trace
    case ActivityClassName => e.lifecycleActivity.className
    case FragmentClassName => e.lifecycleFragment.className
    case FragmentParentActivity => e.lifecycleFragment.parentActivity
    case ColdLaunchedActivity => e.coldLaunch.launchedActivity
    case WarmLaunchedActivity => e.warmLaunch.launchedActivity
    case HotLaunchedActivity => e.hotLaunch.launchedActivity
  }


  function MarshalFrames(frames: seq<Frame>, marshal: Frame -> string): (r: seq<string>)
    ensures |r| == |frames|
    ensures forall i :: 0 <= i < |frames| ==> r[i] == marshal(frames[i])
  {
    seq(|frames|, i requires 0 <= i < |frames| => marshal(frames[i]))
  }

  /** The units of exception `j` of a crash: its frames (if any), then its type (if any). */
  function ExceptionSpecs(kind: string, idx: nat, j: nat, u: ExceptionUnit,
                          marshal: Frame -> string, prefix: string): seq<UnitSpec>
  {
    (if |u.frames| > 0
     then [UnitSpec(NewCodecMapVal.(kind := kind, event := idx, exception := j, frames := true),
                    MarshalFrames(u.frames, marshal))]
     else [])
    + (if |u.exceptionType| > 0
       then [UnitSpec(NewCodecMapVal.(kind := kind, event := idx, exception := j, exceptionType := true),
                      [prefix + u.exceptionType])]
       else [])
  }

  function AllExceptionSpecs(kind: string, idx: nat, units: seq<ExceptionUnit>,
                             marshal: Frame -> string, prefix: string): seq<UnitSpec>
  {
    if |units| == 0 then []
    else AllExceptionSpecs(kind, idx, units[..|units| - 1], marshal, prefix)
         + ExceptionSpecs(kind, idx, |units| - 1, units[|units| - 1], marshal, prefix)
  }

  function AllThreadSpecs(kind: string, idx: nat, threads: seq<Thread>, marshal: Frame -> string)
    : seq<UnitSpec>
  {
    if |threads| == 0 then []
    else
      var t := threads[|threads| - 1];
      AllThreadSpecs(kind, idx, threads[..|threads| - 1], marshal)
      + (if |t.frames| > 0
         then [UnitSpec(NewCodecMapVal.(kind := kind, event := idx, thread := |threads| - 1, frames := true),
                        MarshalFrames(t.frames, marshal))]
         else [])
  }

  function CrashSpecs(kind: string, idx: nat, c: CrashReport, marshal: Frame -> string, prefix: string)
    : seq<UnitSpec>
  {
    AllExceptionSpecs(kind, idx, c.exceptions, marshal, prefix) + AllThreadSpecs(kind, idx, c.threads, marshal)
  }

  /** The event type whose field `f` is symbolicated. */
  function OwnerType(f: SwapField): string
  {
    match f
    case AppExitTrace => TypeAppExit
    case ActivityClassName => TypeLifecycleActivity
    case FragmentClassName => TypeLifecycleFragment
    case FragmentParentActivity => TypeLifecycleFragment
    case ColdLaunchedActivity => TypeColdLaunch
    case WarmLaunchedActivity => TypeWarmLaunch
    case HotLaunchedActivity => TypeHotLaunch
  }

  /** The codec value the encoder stores for field `f` of event `idx`. */
  function SwapVal(idx: nat, f: SwapField): CodecMapVal
  {
    var v := NewCodecMapVal.(kind := OwnerType(f), event := idx);
    match f
    case AppExitTrace => v.(trace := true)
    case ActivityClassName => v.(className := true)
    case FragmentClassName => v.(className := true)
    case FragmentParentActivity => v.(parentActivity := true)
    case ColdLaunchedActivity => v.(launchedActivity := true)
    case WarmLaunchedActivity => v.(launchedActivity := true)
    case HotLaunchedActivity => v.(launchedActivity := true)
  }

  /** The unit of field `f` of event `idx`: present when the event has that type and the field is not empty. */
  function FieldSpec(e: EventField, idx: nat, f: SwapField, prefix: string): seq<UnitSpec>
  {
    if e.eventType == OwnerType(f) && |FieldOf(e, f)| > 0 then [UnitSpec(SwapVal(idx, f), [prefix + FieldOf(e, f)])]
    else []
  }

  /** The units of the string fields of event `idx`, in the order the encoder emits them. */
  function StringSpecs(e: EventField, idx: nat, prefix: string): seq<UnitSpec>
  {
    FieldSpec(e, idx, AppExitTrace, prefix) + FieldSpec(e, idx, ActivityClassName, prefix)
    + FieldSpec(e, idx, FragmentClassName, prefix) + FieldSpec(e, idx, FragmentParentActivity, prefix)
    + FieldSpec(e, idx, ColdLaunchedActivity, prefix) + FieldSpec(e, idx, WarmLaunchedActivity, prefix)
    + FieldSpec(e, idx, HotLaunchedActivity, prefix)
  }

  /** The units of event `idx`, in the order the encoder emits them. */
  function EventSpecs(e: EventField, idx: nat, marshal: Frame -> string, prefix: string): seq<UnitSpec>
  {
    (if IsException(e) then CrashSpecs(TypeException, idx, e.exception, marshal, prefix) else [])
    + (if IsANR(e) then CrashSpecs(TypeANR, idx, e.anr, marshal, prefix) else [])
    + StringSpecs(e, idx, prefix)
  }

  /** The units of a whole session, event by event. */
  function SessionSpecs(events: seq<EventField>, marshal: Frame -> string, prefix: string): seq<UnitSpec>
  {
    if |events| == 0 then []
    else SessionSpecs(events[..|events| - 1], marshal, prefix)
         + EventSpecs(events[|events| - 1], |events| - 1, marshal, prefix)
  }

  /** The k-th unit gets the k-th fresh id. */
  function UnitsOf(specs: seq<UnitSpec>, gen: nat -> Uuid): (r: seq<SymbolicationUnit>)
    ensures |r| == |specs|
  {
    if |specs| == 0 then []
    else UnitsOf(specs[..|specs| - 1], gen) + [SymbolicationUnit(gen(|specs| - 1), specs[|specs| - 1].values)]
  }

  /** Unit k carries the k-th fresh id and the values of the k-th spec. */
  lemma {:induction false} UnitsOfAt(specs: seq<UnitSpec>, gen: nat -> Uuid)
    ensures forall k :: 0 <= k < |specs| ==> UnitsOf(specs, gen)[k] == SymbolicationUnit(gen(k), specs[k].values)
  {
    if |specs| > 0 {
      var init := specs[..|specs| - 1];
      UnitsOfAt(init, gen);
      assert forall k :: 0 <= k < |init| ==> init[k] == specs[k];
    }
  }

  /** The codec map after storing every unit's value under its id, in order. */
  function BuildCodecMap(specs: seq<UnitSpec>, gen: nat -> Uuid): map<Uuid, CodecMapVal>
  {
    if |specs| == 0 then map[]
    else BuildCodecMap(specs[..|specs| - 1], gen)[gen(|specs| - 1) := specs[|specs| - 1].val]
  }

  predicate InjectiveBelow(gen: nat -> Uuid, n: nat)
  {
    forall i, j :: 0 <= i < j < n ==> gen(i) != gen(j)
  }

  /** `EncodeForSymbolication`: walks the events and appends each event's units with fresh ids. */
  method EncodeForSymbolication(events: seq<EventField>, gen: nat -> Uuid, marshal: Frame -> string,
                                prefix: string)
    returns (codecMap: map<Uuid, CodecMapVal>, units: seq<SymbolicationUnit>)
    ensures units == UnitsOf(SessionSpecs(events, marshal, prefix), gen)
    ensures codecMap == BuildCodecMap(SessionSpecs(events, marshal, prefix), gen)
  {
    codecMap := map[];
    units := [];
    ghost var emitted: seq<UnitSpec> := [];
    var i := 0;
    while i < |events|
      invariant 0 <= i <= |events|
      invariant emitted == SessionSpecs(events[..i], marshal, prefix)
      invariant units == UnitsOf(emitted, gen) && codecMap == BuildCodecMap(emitted, gen)
    {
      var specs := EventSpecs(events[i], i, marshal, prefix);
      codecMap, units := AppendUnits(codecMap, units, specs, gen, emitted);
      emitted := emitted + specs;
      SessionSpecsStep(events, i, marshal, prefix);
      i := i + 1;
    }
    assert events[..i] == events;
  }

  /** Gives each unit of `specs` the next fresh id, stores its value in the map and appends it. */
  method AppendUnits(codecMap: map<Uuid, CodecMapVal>, units: seq<SymbolicationUnit>, specs: seq<UnitSpec>,
                     gen: nat -> Uuid, ghost emitted: seq<UnitSpec>)
    returns (codecMap': map<Uuid, CodecMapVal>, units': seq<SymbolicationUnit>)
    requires units == UnitsOf(emitted, gen) && codecMap == BuildCodecMap(emitted, gen)
    ensures units' == UnitsOf(emitted + specs, gen) && codecMap' == BuildCodecMap(emitted + specs, gen)
  {
    codecMap', units' := codecMap, units;
    ghost var acc := emitted;
    var j := 0;
    while j < |specs|
      invariant 0 <= j <= |specs|
      invariant acc == emitted + specs[..j]
      invariant units' == UnitsOf(acc, gen) && codecMap' == BuildCodecMap(acc, gen)
    {
      AppendSpec(acc, specs[j], gen);
      var id := gen(|units'|);
      codecMap' := codecMap'[id := specs[j].val];
      units' := units' + [SymbolicationUnit(id, specs[j].values)];
      acc := acc + [specs[j]];
      assert specs[..j + 1] == specs[..j] + [specs[j]];
      j := j + 1;
    }
    assert specs[..j] == specs;
  }

  lemma AppendSpec(specs: seq<UnitSpec>, s: UnitSpec, gen: nat -> Uuid)
    ensures UnitsOf(specs + [s], gen) == UnitsOf(specs, gen) + [SymbolicationUnit(gen(|specs|), s.values)]
    ensures BuildCodecMap(specs + [s], gen) == BuildCodecMap(specs, gen)[gen(|specs|) := s.val]
  {
    assert (specs + [s])[..|specs|] == specs;
  }

  lemma SessionSpecsStep(events: seq<EventField>, i: nat, marshal: Frame -> string, prefix: string)
    requires i < |events|
    ensures SessionSpecs(events[..i + 1], marshal, prefix)
            == SessionSpecs(events[..i], marshal, prefix) + EventSpecs(events[i], i, marshal, prefix)
  {
    assert events[..i + 1][..i] == events[..i];
  }

  /** Every unit's id is a key of the codec map, and with distinct ids the key maps to that unit's value. */
  lemma {:induction false} CodecMapHoldsEveryUnit(specs: seq<UnitSpec>, gen: nat -> Uuid)
    ensures BuildCodecMap(specs, gen).Keys == set k | 0 <= k < |specs| :: gen(k)
    ensures InjectiveBelow(gen, |specs|) ==>
      forall k :: 0 <= k < |specs| ==> BuildCodecMap(specs, gen)[gen(k)] == specs[k].val
  {
    if |specs| > 0 {
      var init := specs[..|specs| - 1];
      CodecMapHoldsEveryUnit(init, gen);
      assert forall k :: 0 <= k < |init| ==> init[k] == specs[k];
    }
  }

  /** With distinct ids the codec map has exactly one entry per unit. */
  lemma {:induction false} CodecMapSize(specs: seq<UnitSpec>, gen: nat -> Uuid)
    requires InjectiveBelow(gen, |specs|)
    ensures |BuildCodecMap(specs, gen)| == |specs|
  {
    if |specs| > 0 {
      var init := specs[..|specs| - 1];
      CodecMapSize(init, gen);
      CodecMapHoldsEveryUnit(init, gen);
      assert gen(|specs| - 1) !in BuildCodecMap(init, gen).Keys;
    }
  }

  lemma {:induction false} EventSpecsNeedSymbolication(e: EventField, idx: nat, marshal: Frame -> string,
                                                       prefix: string)
    requires !MeasureSession.NeedsSymbolication(e)
    ensures EventSpecs(e, idx, marshal, prefix) == []
  {
  }

  /** A session that needs no symbolication yields no units (and so an empty codec map). */
  lemma {:induction false} NoSymbolicationNoUnits(events: seq<EventField>, marshal: Frame -> string,
                                                  prefix: string)
    requires forall i :: 0 <= i < |events| ==> !MeasureSession.NeedsSymbolication(events[i])
    ensures SessionSpecs(events, marshal, prefix) == []
  {
    if |events| > 0 {
      NoSymbolicationNoUnits(events[..|events| - 1], marshal, prefix);
      EventSpecsNeedSymbolication(events[|events| - 1], |events| - 1, marshal, prefix);
    }
  }

  // ---------------------------------------------------------------------
  // Decoding

  function WithField(e: EventField, f: SwapField, v: string): (r: EventField)
    ensures FieldOf(r, f) == v
    ensures v == FieldOf(e, f) ==> r == e
    ensures r.exception == e.exception && r.anr == e.anr && r.eventType == e.eventType
  {
    match f
    case AppExitTrace => e.(appExit := e.appExit.(trace := v))
    case ActivityClassName => e.(lifecycleActivity := e.lifecycleActivity.(className := v))
    case FragmentClassName => e.(lifecycleFragment := e.lifecycleFragment.(className := v))
    case FragmentParentActivity => e.(lifecycleFragment := e.lifecycleFragment.(parentActivity := v))
    case ColdLaunchedActivity => e.(coldLaunch := e.coldLaunch.(launchedActivity := v))
    case WarmLaunchedActivity => e.(warmLaunch := e.warmLaunch.(launchedActivity := v))
    case HotLaunchedActivity => e.(hotLaunch := e.hotLaunch.(launchedActivity := v))
  }

  /** The string fields a non-crash codec value asks the decoder to overwrite, in the decoder's order. */
  function SwappedFields(v: CodecMapVal): seq<SwapField>
  {
    if v.kind == TypeAppExit then (if v.trace then [AppExitTrace] else [])
    else if v.kind == TypeLifecycleActivity then (if v.className then [ActivityClassName] else [])
    else if v.kind == TypeLifecycleFragment then
      (if v.className then [FragmentClassName] else []) + (if v.parentActivity then [FragmentParentActivity] else [])
    else if v.kind == TypeColdLaunch then (if v.launchedActivity then [ColdLaunchedActivity] else [])
    else if v.kind == TypeWarmLaunch then (if v.launchedActivity then [WarmLaunchedActivity] else [])
    else if v.kind == TypeHotLaunch then (if v.launchedActivity then [HotLaunchedActivity] else [])
    else []
  }

  predicate IsCrashKind(kind: string)
  {
    kind == TypeException || kind == TypeANR
  }

  function CrashOf(e: EventField, kind: string): CrashReport
  {
    if kind == TypeANR then e.anr else e.exception
  }

  function WithCrash(e: EventField, kind: string, c: CrashReport): (r: EventField)
    ensures CrashOf(r, kind) == c
    ensures c == CrashOf(e, kind) ==> r == e
  {
    if kind == TypeANR then e.(anr := c) else e.(exception := c)
  }

  /** An event with every stack frame removed: what symbolication must leave untouched. */
  function StripCrash(c: CrashReport): (r: CrashReport)
    ensures |r.exceptions| == |c.exceptions| && |r.threads| == |c.threads|
    ensures forall j :: 0 <= j < |c.exceptions| ==> r.exceptions[j].exceptionType == c.exceptions[j].exceptionType
  {
    c.(exceptions := seq(|c.exceptions|, j requires 0 <= j < |c.exceptions| => c.exceptions[j].(frames := [])),
       threads := seq(|c.threads|, j requires 0 <= j < |c.threads| => c.threads[j].(frames := [])))
  }

  function Strip(e: EventField): EventField
  {
    e.(exception := StripCrash(e.exception), anr := StripCrash(e.anr))
  }

  /** Two event lists that differ at most in their stack frames. */
  predicate SameButFrames(a: seq<EventField>, b: seq<EventField>)
  {
    |a| == |b| && forall i :: 0 <= i < |a| ==> Strip(a[i]) == Strip(b[i])
  }

  lemma StripKeepsShape(a: EventField, b: EventField, kind: string)
    requires Strip(a) == Strip(b)
    ensures |CrashOf(a, kind).exceptions| == |CrashOf(b, kind).exceptions|
    ensures |CrashOf(a, kind).threads| == |CrashOf(b, kind).threads|
    ensures forall j :: 0 <= j < |CrashOf(a, kind).exceptions| ==>
      CrashOf(a, kind).exceptions[j].exceptionType == CrashOf(b, kind).exceptions[j].exceptionType
    ensures forall f :: FieldOf(a, f) == FieldOf(b, f)
  {
    assert StripCrash(CrashOf(a, kind)) == StripCrash(CrashOf(b, kind));
    forall f ensures FieldOf(a, f) == FieldOf(b, f) {
      assert FieldOf(Strip(a), f) == FieldOf(Strip(b), f);
    }
  }

  /** Replacing the frames of one exception or thread of a crash leaves the stripped crash as it was. */
  lemma StripIgnoresFrames(e: EventField, kind: string, c: CrashReport)
    requires IsCrashKind(kind)
    requires |c.exceptions| == |CrashOf(e, kind).exceptions| && |c.threads| == |CrashOf(e, kind).threads|
    requires forall j :: 0 <= j < |c.exceptions| ==>
      c.exceptions[j].(frames := []) == CrashOf(e, kind).exceptions[j].(frames := [])
    requires forall j :: 0 <= j < |c.threads| ==> c.threads[j].(frames := []) == CrashOf(e, kind).threads[j].(frames := [])
    requires c.(exceptions := [], threads := []) == CrashOf(e, kind).(exceptions := [], threads := [])
    ensures Strip(WithCrash(e, kind, c)) == Strip(e)
  {
    var old_ := CrashOf(e, kind);
    assert StripCrash(c).exceptions == StripCrash(old_).exceptions;
    assert StripCrash(c).threads == StripCrash(old_).threads;
    assert StripCrash(c) == StripCrash(old_);
  }

  /** Overwrites the frames of exception `j` of the crash of event `ev`; `None` when an index is out of range. */
  function SetExceptionFrames(cur: seq<EventField>, kind: string, ev: int, j: int, frames: seq<Frame>)
    : (r: Option<seq<EventField>>)
    requires IsCrashKind(kind)
    ensures r.Some? <==> 0 <= ev < |cur| && 0 <= j < |CrashOf(cur[ev], kind).exceptions|
    ensures r.Some? ==> SameButFrames(r.value, cur) && CrashOf(r.value[ev], kind).exceptions[j].frames == frames
  {
    if 0 <= ev < |cur| && 0 <= j < |CrashOf(cur[ev], kind).exceptions| then
      var c := CrashOf(cur[ev], kind);
      var c' := c.(exceptions := c.exceptions[j := c.exceptions[j].(frames := frames)]);
      StripIgnoresFrames(cur[ev], kind, c');
      Some(cur[ev := WithCrash(cur[ev], kind, c')])
    else None
  }

  /** Overwrites the frames of thread `t` of the crash of event `ev`; `None` when an index is out of range. */
  function SetThreadFrames(cur: seq<EventField>, kind: string, ev: int, t: int, frames: seq<Frame>)
    : (r: Option<seq<EventField>>)
    requires IsCrashKind(kind)
    ensures r.Some? <==> 0 <= ev < |cur| && 0 <= t < |CrashOf(cur[ev], kind).threads|
    ensures r.Some? ==> SameButFrames(r.value, cur) && CrashOf(r.value[ev], kind).threads[t].frames == frames
  {
    if 0 <= ev < |cur| && 0 <= t < |CrashOf(cur[ev], kind).threads| then
      var c := CrashOf(cur[ev], kind);
      var c' := c.(threads := c.threads[t := c.threads[t].(frames := frames)]);
      StripIgnoresFrames(cur[ev], kind, c');
      Some(cur[ev := WithCrash(cur[ev], kind, c')])
    else None
  }

  /** Overwrites the type of exception `j` of the crash of event `ev`; `None` when an index is out of range. */
  function SetExceptionType(cur: seq<EventField>, kind: string, ev: int, j: int, exceptionType: string)
    : (r: Option<seq<EventField>>)
    requires IsCrashKind(kind)
    ensures r.Some? <==> 0 <= ev < |cur| && 0 <= j < |CrashOf(cur[ev], kind).exceptions|
    ensures r.Some? ==> |r.value| == |cur| && 0 <= j < |CrashOf(r.value[ev], kind).exceptions|
                        && CrashOf(r.value[ev], kind).exceptions[j].exceptionType == exceptionType
    ensures r.Some? && exceptionType == CrashOf(cur[ev], kind).exceptions[j].exceptionType ==> r.value == cur
  {
    if 0 <= ev < |cur| && 0 <= j < |CrashOf(cur[ev], kind).exceptions| then
      var c := CrashOf(cur[ev], kind);
      var c' := c.(exceptions := c.exceptions[j := c.exceptions[j].(exceptionType := exceptionType)]);
      assert exceptionType == c.exceptions[j].exceptionType ==> c' == c;
      Some(cur[ev := WithCrash(cur[ev], kind, c')])
    else None
  }

  /**
   * The frames the decoder rebuilds from a unit's values: those that fail
   * to unmarshal are skipped, and column and module are not carried over.
   */
  function UnmarshalFrames(values: seq<string>, unmarshal: string -> Option<Frame>): (r: seq<Frame>)
    ensures |r| <= |values|
    ensures forall f :: f in r ==> f.colNum == 0 && f.moduleName == ""
  {
    if |values| == 0 then []
    else
      var f := unmarshal(values[|values| - 1]);
      UnmarshalFrames(values[..|values| - 1], unmarshal)
      + (if f.Some? then [Frame(f.value.lineNum, 0, "", f.value.fileName, f.value.className, f.value.methodName)] else [])
  }

  /** The crash branch of the decoder (exception or ANR). */
  function ApplyCrashUnit(cur: seq<EventField>, v: CodecMapVal, values: seq<string>,
                          unmarshal: string -> Option<Frame>, prefix: string): Option<seq<EventField>>
    requires IsCrashKind(v.kind)
  {
    var frames := UnmarshalFrames(values, unmarshal);
    var s1 := if v.frames && v.exception > -1 then SetExceptionFrames(cur, v.kind, v.event, v.exception, frames)
              else Some(cur);
    var s2 := if s1.Some? && v.frames && v.thread > -1 then SetThreadFrames(s1.value, v.kind, v.event, v.thread, frames)
              else s1;
    if s2.Some? && v.exceptionType then
      if |values| == 0 then None
      else SetExceptionType(s2.value, v.kind, v.event, v.exception, TrimPrefix(values[0], prefix))
    else s2
  }

  /** The string branches of the decoder: each listed field gets the first value without its prefix. */
  function ApplyStrings(cur: seq<EventField>, ev: int, fields: seq<SwapField>, values: seq<string>, prefix: string)
    : Option<seq<EventField>>
    decreases |fields|
  {
    if |fields| == 0 then Some(cur)
    else if |values| == 0 || !(0 <= ev < |cur|) then None
    else ApplyStrings(cur[ev := WithField(cur[ev], fields[0], TrimPrefix(values[0], prefix))],
                      ev, fields[1..], values, prefix)
  }

  function LookupVal(codecMap: map<Uuid, CodecMapVal>, id: Uuid): CodecMapVal
  {
    if id in codecMap then codecMap[id] else ZeroCodecMapVal
  }

  /** One iteration of the decoder's loop. */
  function ApplyUnit(cur: seq<EventField>, codecMap: map<Uuid, CodecMapVal>, su: SymbolicationUnit,
                     unmarshal: string -> Option<Frame>, prefix: string): Option<seq<EventField>>
  {
    var v := LookupVal(codecMap, su.id);
    if IsCrashKind(v.kind) then ApplyCrashUnit(cur, v, su.values, unmarshal, prefix)
    else ApplyStrings(cur, v.event, SwappedFields(v), su.values, prefix)
  }

  /** The events after applying the units in order; `None` when one of them panics. */
  function Decode(cur: seq<EventField>, codecMap: map<Uuid, CodecMapVal>, units: seq<SymbolicationUnit>,
                  unmarshal: string -> Option<Frame>, prefix: string): Option<seq<EventField>>
    decreases |units|
  {
    if |units| == 0 then Some(cur)
    else
      var next := ApplyUnit(cur, codecMap, units[0], unmarshal, prefix);
      if next.None? then None else Decode(next.value, codecMap, units[1..], unmarshal, prefix)
  }

  /** `DecodeFromSymbolication`: applies the units one after the other. */
  method DecodeFromSymbolication(events: seq<EventField>, codecMap: map<Uuid, CodecMapVal>,
                                 units: seq<SymbolicationUnit>, unmarshal: string -> Option<Frame>,
                                 prefix: string)
    returns (r: Option<seq<EventField>>)
    ensures r == Decode(events, codecMap, units, unmarshal, prefix)
  {
    var cur := events;
    var k := 0;
    while k < |units|
      invariant 0 <= k <= |units|
      invariant Decode(cur, codecMap, units[k..], unmarshal, prefix) == Decode(events, codecMap, units, unmarshal, prefix)
    {
      var next := ApplyUnit(cur, codecMap, units[k], unmarshal, prefix);
      if next.None? {
        return None;
      }
      assert units[k..][1..] == units[k + 1..];
      cur := next.value;
      k := k + 1;
    }
    return Some(cur);
  }

  // ---------------------------------------------------------------------
  // The round trip

  /** What a unit must say about the event it points into for decoding to restore it. */
  predicate FitsEvent(e: EventField, s: UnitSpec, prefix: string)
  {
    var v := s.val;
    if IsCrashKind(v.kind) then
      var c := CrashOf(e, v.kind);
      (v.frames ==> (v.exception > -1 ==> v.exception < |c.exceptions|) && (v.thread > -1 ==> v.thread < |c.threads|))
      && (v.exceptionType ==>
            0 <= v.exception < |c.exceptions| && s.values == [prefix + c.exceptions[v.exception].exceptionType])
    else forall f :: f in SwappedFields(v) ==> s.values == [prefix + FieldOf(e, f)]
  }

  predicate Fits(events: seq<EventField>, s: UnitSpec, prefix: string)
  {
    0 <= s.val.event < |events| && FitsEvent(events[s.val.event], s, prefix)
  }

  lemma FitsTransfer(a: seq<EventField>, b: seq<EventField>, s: UnitSpec, prefix: string)
    requires SameButFrames(a, b) && Fits(a, s, prefix)
    ensures Fits(b, s, prefix)
  {
    StripKeepsShape(a[s.val.event], b[s.val.event], s.val.kind);
  }

  lemma {:induction false} ApplyStringsRestores(cur: seq<EventField>, ev: int, fields: seq<SwapField>,
                                                values: seq<string>, prefix: string)
    requires 0 <= ev < |cur|
    requires forall f :: f in fields ==> values == [prefix + FieldOf(cur[ev], f)]
    ensures ApplyStrings(cur, ev, fields, values, prefix) == Some(cur)
  {
    if |fields| > 0 {
      TrimPrefixAfterPrefix(prefix, FieldOf(cur[ev], fields[0]));
      assert cur[ev := WithField(cur[ev], fields[0], TrimPrefix(values[0], prefix))] == cur;
      ApplyStringsRestores(cur, ev, fields[1..], values, prefix);
    }
  }

  lemma ApplyCrashUnitRestores(cur: seq<EventField>, v: CodecMapVal, values: seq<string>,
                               unmarshal: string -> Option<Frame>, prefix: string)
    requires IsCrashKind(v.kind) && Fits(cur, UnitSpec(v, values), prefix)
    ensures ApplyCrashUnit(cur, v, values, unmarshal, prefix).Some?
    ensures SameButFrames(ApplyCrashUnit(cur, v, values, unmarshal, prefix).value, cur)
  {
    var frames := UnmarshalFrames(values, unmarshal);
    var s1 := if v.frames && v.exception > -1 then SetExceptionFrames(cur, v.kind, v.event, v.exception, frames)
              else Some(cur);
    assert s1.Some? && SameButFrames(s1.value, cur);
    StripKeepsShape(s1.value[v.event], cur[v.event], v.kind);
    var s2 := if v.frames && v.thread > -1 then SetThreadFrames(s1.value, v.kind, v.event, v.thread, frames)
              else s1;
    assert s2.Some? && SameButFrames(s2.value, cur);
    StripKeepsShape(s2.value[v.event], cur[v.event], v.kind);
    if v.exceptionType {
      var t := CrashOf(cur[v.event], v.kind).exceptions[v.exception].exceptionType;
      TrimPrefixAfterPrefix(prefix, t);
      assert TrimPrefix(values[0], prefix) == CrashOf(s2.value[v.event], v.kind).exceptions[v.exception].exceptionType;
    }
  }

  /** One unit that fits the events it is applied to changes at most their stack frames. */
  lemma ApplyUnitRestores(cur: seq<EventField>, codecMap: map<Uuid, CodecMapVal>, su: SymbolicationUnit,
                          unmarshal: string -> Option<Frame>, prefix: string)
    requires Fits(cur, UnitSpec(LookupVal(codecMap, su.id), su.values), prefix)
    ensures ApplyUnit(cur, codecMap, su, unmarshal, prefix).Some?
    ensures SameButFrames(ApplyUnit(cur, codecMap, su, unmarshal, prefix).value, cur)
  {
    var v := LookupVal(codecMap, su.id);
    if IsCrashKind(v.kind) {
      ApplyCrashUnitRestores(cur, v, su.values, unmarshal, prefix);
    } else {
      ApplyStringsRestores(cur, v.event, SwappedFields(v), su.values, prefix);
    }
  }

  lemma SameButFramesTrans(a: seq<EventField>, b: seq<EventField>, c: seq<EventField>)
    requires SameButFrames(a, b) && SameButFrames(b, c)
    ensures SameButFrames(a, c)
  {}

  /** Units that all fit the original events decode without panicking and change nothing but stack frames. */
  lemma {:induction false} DecodeRestores(events: seq<EventField>, cur: seq<EventField>,
                                          codecMap: map<Uuid, CodecMapVal>, units: seq<SymbolicationUnit>,
                                          unmarshal: string -> Option<Frame>, prefix: string)
    requires SameButFrames(cur, events)
    requires forall k :: 0 <= k < |units| ==> Fits(events, UnitSpec(LookupVal(codecMap, units[k].id), units[k].values), prefix)
    ensures Decode(cur, codecMap, units, unmarshal, prefix).Some?
    ensures SameButFrames(Decode(cur, codecMap, units, unmarshal, prefix).value, events)
    decreases |units|
  {
    if |units| > 0 {
      FitsTransfer(events, cur, UnitSpec(LookupVal(codecMap, units[0].id), units[0].values), prefix);
      ApplyUnitRestores(cur, codecMap, units[0], unmarshal, prefix);
      var next := ApplyUnit(cur, codecMap, units[0], unmarshal, prefix).value;
      SameButFramesTrans(next, cur, events);
      DecodeRestores(events, next, codecMap, units[1..], unmarshal, prefix);
    }
  }

  /** Every unit of exception `j` of a crash points at that exception, and its type unit carries that type. */
  lemma ExceptionSpecsFit(e: EventField, kind: string, idx: nat, j: nat, marshal: Frame -> string, prefix: string)
    requires IsCrashKind(kind) && j < |CrashOf(e, kind).exceptions|
    ensures forall s :: s in ExceptionSpecs(kind, idx, j, CrashOf(e, kind).exceptions[j], marshal, prefix) ==>
      s.val.event == idx && FitsEvent(e, s, prefix)
  {}

  lemma {:induction false} AllExceptionSpecsFit(e: EventField, kind: string, idx: nat, n: nat,
                                                marshal: Frame -> string, prefix: string)
    requires IsCrashKind(kind) && n <= |CrashOf(e, kind).exceptions|
    ensures forall s :: s in AllExceptionSpecs(kind, idx, CrashOf(e, kind).exceptions[..n], marshal, prefix) ==>
      s.val.event == idx && FitsEvent(e, s, prefix)
  {
    if n > 0 {
      var us := CrashOf(e, kind).exceptions[..n];
      assert us[..n - 1] == CrashOf(e, kind).exceptions[..n - 1];
      AllExceptionSpecsFit(e, kind, idx, n - 1, marshal, prefix);
      ExceptionSpecsFit(e, kind, idx, n - 1, marshal, prefix);
    }
  }

  lemma {:induction false} AllThreadSpecsFit(e: EventField, kind: string, idx: nat, n: nat, marshal: Frame -> string,
                                             prefix: string)
    requires IsCrashKind(kind) && n <= |CrashOf(e, kind).threads|
    ensures forall s :: s in AllThreadSpecs(kind, idx, CrashOf(e, kind).threads[..n], marshal) ==>
      s.val.event == idx && FitsEvent(e, s, prefix)
  {
    if n > 0 {
      var ts := CrashOf(e, kind).threads[..n];
      assert ts[..n - 1] == CrashOf(e, kind).threads[..n - 1];
      AllThreadSpecsFit(e, kind, idx, n - 1, marshal, prefix);
    }
  }

  lemma CrashSpecsFit(e: EventField, kind: string, idx: nat, marshal: Frame -> string, prefix: string)
    requires IsCrashKind(kind)
    ensures forall s :: s in CrashSpecs(kind, idx, CrashOf(e, kind), marshal, prefix) ==>
      s.val.event == idx && FitsEvent(e, s, prefix)
  {
    var c := CrashOf(e, kind);
    AllExceptionSpecsFit(e, kind, idx, |c.exceptions|, marshal, prefix);
    AllThreadSpecsFit(e, kind, idx, |c.threads|, marshal, prefix);
    assert c.exceptions[..|c.exceptions|] == c.exceptions;
    assert c.threads[..|c.threads|] == c.threads;
  }

  /** Every unit of `specs` points at event `idx` and describes `e` correctly. */
  predicate AllFit(e: EventField, idx: int, specs: seq<UnitSpec>, prefix: string)
  {
    forall s :: s in specs ==> s.val.event == idx && FitsEvent(e, s, prefix)
  }

  lemma AllFitConcat(e: EventField, idx: int, a: seq<UnitSpec>, b: seq<UnitSpec>, prefix: string)
    requires AllFit(e, idx, a, prefix) && AllFit(e, idx, b, prefix)
    ensures AllFit(e, idx, a + b, prefix)
  {}

  lemma SwapValNamesField(idx: nat, f: SwapField)
    ensures SwapVal(idx, f).event == idx && !IsCrashKind(SwapVal(idx, f).kind)
    ensures SwappedFields(SwapVal(idx, f)) == [f]
  {}

  lemma StringSpecsFit(e: EventField, idx: nat, prefix: string)
    ensures AllFit(e, idx, StringSpecs(e, idx, prefix), prefix)
  {
    forall f ensures AllFit(e, idx, FieldSpec(e, idx, f, prefix), prefix) {
      SwapValNamesField(idx, f);
    }
    var a1, a2, a3, a4 := FieldSpec(e, idx, AppExitTrace, prefix), FieldSpec(e, idx, ActivityClassName, prefix),
      FieldSpec(e, idx, FragmentClassName, prefix), FieldSpec(e, idx, FragmentParentActivity, prefix);
    var a5, a6, a7 := FieldSpec(e, idx, ColdLaunchedActivity, prefix), FieldSpec(e, idx, WarmLaunchedActivity, prefix),
      FieldSpec(e, idx, HotLaunchedActivity, prefix);
    AllFitConcat(e, idx, a1, a2, prefix);
    AllFitConcat(e, idx, a1 + a2, a3, prefix);
    AllFitConcat(e, idx, a1 + a2 + a3, a4, prefix);
    AllFitConcat(e, idx, a1 + a2 + a3 + a4, a5, prefix);
    AllFitConcat(e, idx, a1 + a2 + a3 + a4 + a5, a6, prefix);
    AllFitConcat(e, idx, a1 + a2 + a3 + a4 + a5 + a6, a7, prefix);
  }

  /** Every unit the encoder emits for an event points back at that event and describes it correctly. */
  lemma EventSpecsFit(e: EventField, idx: nat, marshal: Frame -> string, prefix: string)
    ensures AllFit(e, idx, EventSpecs(e, idx, marshal, prefix), prefix)
  {
    CrashSpecsFit(e, TypeException, idx, marshal, prefix);
    CrashSpecsFit(e, TypeANR, idx, marshal, prefix);
    StringSpecsFit(e, idx, prefix);
  }

  lemma {:induction false} SessionSpecsFit(events: seq<EventField>, marshal: Frame -> string, prefix: string)
    ensures forall s :: s in SessionSpecs(events, marshal, prefix) ==> Fits(events, s, prefix)
  {
    if |events| > 0 {
      var init := events[..|events| - 1];
      SessionSpecsFit(init, marshal, prefix);
      EventSpecsFit(events[|events| - 1], |events| - 1, marshal, prefix);
      forall s | s in SessionSpecs(init, marshal, prefix) ensures Fits(events, s, prefix) {
        assert events[s.val.event] == init[s.val.event];
      }
    }
  }

  /**
   * The round trip: with distinct fresh ids, decoding the encoder's own
   * units (as if the symbolicator answered with them unchanged) never
   * panics and restores every event except possibly its stack frames.
   */
  lemma EncodeDecodeRoundTrip(events: seq<EventField>, gen: nat -> Uuid, marshal: Frame -> string,
                              unmarshal: string -> Option<Frame>, prefix: string)
    requires InjectiveBelow(gen, |SessionSpecs(events, marshal, prefix)|)
    ensures var specs := SessionSpecs(events, marshal, prefix);
      var d := Decode(events, BuildCodecMap(specs, gen), UnitsOf(specs, gen), unmarshal, prefix);
      d.Some? && SameButFrames(d.value, events)
  {
    var specs := SessionSpecs(events, marshal, prefix);
    var m := BuildCodecMap(specs, gen);
    var units := UnitsOf(specs, gen);
    SessionSpecsFit(events, marshal, prefix);
    CodecMapHoldsEveryUnit(specs, gen);
    UnitsOfAt(specs, gen);
    forall k | 0 <= k < |units|
      ensures Fits(events, UnitSpec(LookupVal(m, units[k].id), units[k].values), prefix)
    {
      assert UnitSpec(LookupVal(m, units[k].id), units[k].values) == specs[k];
    }
    DecodeRestores(events, events, m, units, unmarshal, prefix);
  }

  /**
   * A string unit the symbolicator answered with `prefix + v` writes `v`
   * into exactly the field it was made from and changes nothing else.
   */
  lemma DecodeWritesAnswer(cur: seq<EventField>, codecMap: map<Uuid, CodecMapVal>, su: SymbolicationUnit,
                           idx: nat, f: SwapField, v: string, unmarshal: string -> Option<Frame>, prefix: string)
    requires su.id in codecMap && codecMap[su.id] == SwapVal(idx, f)
    requires su.values == [prefix + v] && idx < |cur|
    ensures ApplyUnit(cur, codecMap, su, unmarshal, prefix) == Some(cur[idx := WithField(cur[idx], f, v)])
  {
    SwapValNamesField(idx, f);
    TrimPrefixAfterPrefix(prefix, v);
    var next := cur[idx := WithField(cur[idx], f, v)];
    assert ApplyStrings(next, idx, [f][1..], su.values, prefix) == Some(next);
    assert ApplyStrings(cur, idx, [f], su.values, prefix) == Some(next);
  }
}
