/** The shared store: its initial state, the field-setting mutations, the
    validating actions whose rules the store's tests fix, and `resetState`. */
module Store {
  import opened Outcomes
  import opened Js

  datatype ControlPanel = ControlPanel(locked: bool, expanded: bool)
  datatype Filters = Filters(ids: seq<JsValue>)
  datatype Options = Options(controlPanelPosition: string)

  /** The store's state record. `subsetLabels` is read by a getter but is not in
      the initial record, so it starts out undefined. */
  datatype State = State(
    data: JsValue,
    tasks: JsValue,
    requestManager: JsValue,
    chartManager: JsValue,
    stateManager: JsValue,
    controlPanel: ControlPanel,
    subsets: JsValue,
    subsetLabels: JsValue,
    filters: Filters,
    options: Options)

  /** The state the store is created with. */
  const Initial: State := State(
    Arr([]), Obj(map[]), Null, Null, Null,
    ControlPanel(false, false),
    Arr([]), Undefined,
    Filters([]),
    Options("left"))

  /** The deep copy taken when the store is created. Values here are immutable, so
      later mutations of the live state cannot reach it; and the initial record
      holds only JSON data, which a JSON round trip reproduces. */
  const Snapshot: State := Initial

  /** `resetState()`: replace the state by a fresh copy of the snapshot. */
  function ResetState(s: State): (r: State)
    ensures r.data == Arr([]) && r.tasks == Obj(map[]) && r.subsets == Arr([])
    ensures r.requestManager == Null && r.chartManager == Null && r.stateManager == Null
    ensures !r.controlPanel.locked && !r.controlPanel.expanded
    ensures r.filters.ids == [] && r.options.controlPanelPosition == "left"
    ensures r.subsetLabels == Undefined
  {
    Snapshot
  }

  /** `SET_DATA` */
  function SetData(s: State, data: JsValue): (r: State)
    ensures r.data == data
    ensures r.(data := s.data) == s
  {
    s.(data := data)
  }

  /** `SET_REQUEST_MANAGER` */
  function SetRequestManager(s: State, manager: JsValue): (r: State)
    ensures r.requestManager == manager
    ensures r.(requestManager := s.requestManager) == s
  {
    s.(requestManager := manager)
  }

  /** `SET_SUBSETS` */
  function SetSubsets(s: State, subsets: JsValue): (r: State)
    ensures r.subsets == subsets
    ensures r.(subsets := s.subsets) == s
  {
    s.(subsets := subsets)
  }

  /** The mutations, as data, so that sequences of them can be replayed. */
  datatype Mutation = SetDataM(data: JsValue) | SetRequestManagerM(manager: JsValue) | SetSubsetsM(subsets: JsValue)

  function Commit(s: State, m: Mutation): State {
    match m
    case SetDataM(d) => SetData(s, d)
    case SetRequestManagerM(rm) => SetRequestManager(s, rm)
    case SetSubsetsM(ss) => SetSubsets(s, ss)
  }

  predicate SameField(m: Mutation, m': Mutation) {
    || (m.SetDataM? && m'.SetDataM?)
    || (m.SetRequestManagerM? && m'.SetRequestManagerM?)
    || (m.SetSubsetsM? && m'.SetSubsetsM?)
  }

  function CommitAll(s: State, ms: seq<Mutation>): State
    decreases |ms|
  {
    if |ms| == 0 then s else CommitAll(Commit(s, ms[0]), ms[1..])
  }

  /** Mutations validate nothing and are idempotent; the last of two mutations of
      the same field wins. */
  lemma MutationsIdempotent(s: State, m: Mutation, m': Mutation)
    ensures Commit(Commit(s, m), m) == Commit(s, m)
    ensures SameField(m, m') ==> Commit(Commit(s, m), m') == Commit(s, m')
  {
  }

  /** Mutations of different fields commute. */
  lemma MutationsOfDifferentFieldsCommute(s: State, m: Mutation, m': Mutation)
    requires !SameField(m, m')
    ensures Commit(Commit(s, m), m') == Commit(Commit(s, m'), m)
  {
  }

  /** Resetting after any sequence of mutations restores the initial state, and
      resetting twice is resetting once. */
  lemma ResetUndoesMutations(s: State, ms: seq<Mutation>)
    ensures ResetState(CommitAll(s, ms)) == Initial
    ensures ResetState(ResetState(s)) == ResetState(s)
  {
  }

  /** A JavaScript primitive usable as a subset member id. */
  predicate IsPrimitive(v: JsValue) {
    v.Bool? || v.Num? || v.NaN? || v.Str?
  }

  /** Subsets must be an array of arrays of ids. */
  predicate ValidSubsets(v: JsValue) {
    && v.Arr?
    && forall i :: 0 <= i < |v.items| ==>
         v.items[i].Arr? && forall j :: 0 <= j < |v.items[i].items| ==> IsPrimitive(v.items[i].items[j])
  }

  /** The characters `String.prototype.trim` removes: a label made only of these is blank. */
  predicate IsWhitespace(c: char) {
    || c == ' ' || c == '\t' || c == '\n' || c == '\r' || c == '\U{000B}' || c == '\U{000C}'
    || c == '\U{00A0}' || c == '\U{1680}' || ('\U{2000}' <= c <= '\U{200A}')
    || c == '\U{2028}' || c == '\U{2029}' || c == '\U{202F}' || c == '\U{205F}'
    || c == '\U{3000}' || c == '\U{FEFF}'
  }

  predicate Blank(s: string) {
    forall i :: 0 <= i < |s| ==> IsWhitespace(s[i])
  }

  /** Labels must be an array of strings none of which is empty or whitespace only. */
  predicate ValidLabels(v: JsValue) {
    v.Arr? && forall i :: 0 <= i < |v.items| ==> v.items[i].Str? && !Blank(v.items[i].s)
  }

  datatype StoreError = InvalidSubsets | InvalidLabels | NotARequestManager

  const RequestManagerClass: string := "RequestManager"

  /** The `setSubsets` action: validate, then commit `SET_SUBSETS`. */
  function DispatchSetSubsets(s: State, v: JsValue): (r: Result<State, StoreError>)
    ensures r.Ok? <==> ValidSubsets(v)
    ensures r.Ok? ==> r.value.subsets == v && r.value.(subsets := s.subsets) == s
    ensures r.Err? ==> r.error == InvalidSubsets
  {
    if ValidSubsets(v) then Ok(SetSubsets(s, v)) else Err(InvalidSubsets)
  }

  /** The `setSubsetLabels` action: validate, then store the labels. The labels are
      not checked against the number of subsets. */
  function DispatchSetSubsetLabels(s: State, v: JsValue): (r: Result<State, StoreError>)
    ensures r.Ok? <==> ValidLabels(v)
    ensures r.Ok? ==> r.value.subsetLabels == v && r.value.(subsetLabels := s.subsetLabels) == s
    ensures r.Err? ==> r.error == InvalidLabels
  {
    if ValidLabels(v) then Ok(s.(subsetLabels := v)) else Err(InvalidLabels)
  }

  /** The `setRequestManager` action: only a `RequestManager` instance is accepted. */
  function DispatchSetRequestManager(s: State, v: JsValue): (r: Result<State, StoreError>)
    ensures r.Ok? <==> v == Instance(RequestManagerClass)
    ensures r.Ok? ==> r.value.requestManager == v && r.value.(requestManager := s.requestManager) == s
    ensures r.Err? ==> r.error == NotARequestManager
  {
    if v.Instance? && v.cls == RequestManagerClass then Ok(SetRequestManager(s, v)) else Err(NotARequestManager)
  }

  /** A label is rejected as soon as one element is not a non-blank string, and a
      list is accepted whatever its duplicates. */
  lemma {:induction false} OneBadLabelRejects(s: State, labels: seq<JsValue>, i: nat)
    requires i < |labels|
    requires !labels[i].Str? || Blank(labels[i].s)
    ensures DispatchSetSubsetLabels(s, Arr(labels)).Err?
  {
    assert !(labels[i].Str? && !Blank(labels[i].s));
  }

  /** The cases of the store's test suite. */
  lemma StoreTestCases(s: State)
    ensures DispatchSetSubsets(s, Arr([Arr([Num(1.0), Num(2.0), Num(3.0)]), Arr([Num(4.0), Num(5.0), Num(6.0)]),
                                       Arr([Num(6.0), Num(7.0), Num(8.0)])])).Ok?
    ensures DispatchSetSubsets(s, Arr([])) == Ok(s.(subsets := Arr([])))
    ensures DispatchSetSubsets(s, Arr([Str("a"), Arr([Num(1.0), Num(2.0), Num(3.0)])])).Err?
    ensures DispatchSetSubsets(s, Obj(map["a" := Num(1.0)])).Err?
    ensures DispatchSetSubsetLabels(s, Arr([Str("subset 1"), Str("test subset"), Str("test subset")])).Ok?
    ensures DispatchSetSubsetLabels(s, Arr([])) == Ok(s.(subsetLabels := Arr([])))
    ensures DispatchSetSubsetLabels(s, Arr([Str(""), Str("test")])).Err?
    ensures DispatchSetSubsetLabels(s, Arr([Null, Str("test")])).Err?
    ensures DispatchSetSubsetLabels(s, Arr([Str("a"), Str("  ")])).Err?
    ensures DispatchSetSubsetLabels(s, Arr([Str("a"), Num(2.0)])).Err?
    ensures DispatchSetRequestManager(s, Instance(RequestManagerClass)).Ok?
    ensures DispatchSetRequestManager(s, Obj(map[])).Err?
  {
    var ok := [Str("subset 1"), Str("test subset"), Str("test subset")];
    assert !Blank("subset 1") by { assert !IsWhitespace("subset 1"[0]); }
    assert !Blank("test subset") by { assert !IsWhitespace("test subset"[0]); }
    assert !Blank("test") by { assert !IsWhitespace("test"[0]); }
    assert !Blank("a") by { assert !IsWhitespace("a"[0]); }
    OneBadLabelRejects(s, [Str(""), Str("test")], 0);
    OneBadLabelRejects(s, [Null, Str("test")], 0);
    OneBadLabelRejects(s, [Str("a"), Str("  ")], 1);
    OneBadLabelRejects(s, [Str("a"), Num(2.0)], 1);
    assert !Arr([Str("a"), Arr([Num(1.0), Num(2.0), Num(3.0)])]).items[0].Arr?;
  }
}
