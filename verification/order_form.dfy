/** `fill_order_form` and `input_field_value` of the robot-order script: a
    fixed, ordered table of form controls, each filled from one column of the
    order row; the control's selector decides how the value is applied. */
module OrderForm {
  import opened Optional
  import opened Actions

  /** One row of the orders table: column name to cell text. */
  type Row = map<string, string>

  const HeadSelect := "class:custom-select"
  const BodyRadios := "class:radio_body"
  const LegsInput := "css:input[type=\"number\"].form-control"
  const AddressInput := "css:input[type=\"text\"].form-control"
  const RadioPrefix := "css:input[type='radio'][name='body'][value='"

  datatype FormField = FormField(selector: string, column: string)

  /** The controls in the order they are filled. */
  const Fields: seq<FormField> := [
    FormField(HeadSelect, "Head"),
    FormField(BodyRadios, "Body"),
    FormField(LegsInput, "Legs"),
    FormField(AddressInput, "Address")
  ]

  /** `row.get(column, '')`. */
  function Lookup(row: Row, column: string): string {
    if column in row then row[column] else ""
  }

  datatype FieldKind = SelectOption | RadioChoice | TextInput

  /** The selector alone decides how a value is applied. */
  function Kind(selector: string): FieldKind {
    if selector == HeadSelect then SelectOption
    else if selector == BodyRadios then RadioChoice
    else TextInput
  }

  /** The radio button whose value attribute is `value`. */
  function RadioFor(value: string): string {
    RadioPrefix + value + "']"
  }

  /** The browser action that applies `value` to the control `selector`. */
  function FieldAction(selector: string, value: string): Action {
    match Kind(selector)
    case SelectOption => SelectByValue(selector, value)
    case RadioChoice => Click(RadioFor(value))
    case TextInput => InputText(selector, value)
  }

  /** Whether `a` acts on the control of `f`, whatever the value. */
  predicate Touches(a: Action, f: FormField) {
    match Kind(f.selector)
    case SelectOption => a.SelectByValue? && a.selector == f.selector
    case RadioChoice => a.Click? && |RadioPrefix| <= |a.selector| && a.selector[..|RadioPrefix|] == RadioPrefix
    case TextInput => a.InputText? && a.selector == f.selector
  }

  /** What happened to one control (an explicit per-field result instead of an exception). */
  datatype FieldOutcome =
    | Skipped                  // empty value: no browser action
    | Applied(action: Action)
    | Swallowed(action: Action) // the radio click raised; the error was printed and ignored
    | Raised(action: Action)    // the action raised and the exception escapes

  /** `input_field_value(selector, value)` against a browser rejecting `failing`. */
  function InputFieldValue(selector: string, value: string, failing: set<Action>): (r: FieldOutcome)
    ensures r.Skipped? <==> value == ""
    ensures !r.Skipped? ==> r.action == FieldAction(selector, value) && Touches(r.action, FormField(selector, "")) 
    ensures r.Swallowed? <==> value != "" && Kind(selector) == RadioChoice && FieldAction(selector, value) in failing
    ensures r.Raised? <==> value != "" && Kind(selector) != RadioChoice && FieldAction(selector, value) in failing
  {
    if value == "" then Skipped
    else if FieldAction(selector, value) !in failing then Applied(FieldAction(selector, value))
    else if Kind(selector) == RadioChoice then Swallowed(FieldAction(selector, value))
    else Raised(FieldAction(selector, value))
  }

  function FieldOutcomeAt(row: Row, failing: set<Action>, i: nat): FieldOutcome
    requires i < |Fields|
  {
    InputFieldValue(Fields[i].selector, Lookup(row, Fields[i].column), failing)
  }

  /** The loop over the field table from entry `i` on; an escaping exception ends it. */
  function FillFrom(row: Row, failing: set<Action>, i: nat): (outs: seq<FieldOutcome>)
    requires i <= |Fields|
    ensures |outs| <= |Fields| - i
    ensures forall k :: 0 <= k < |outs| ==> outs[k] == FieldOutcomeAt(row, failing, i + k)
    ensures forall k :: 0 <= k < |outs| - 1 ==> !outs[k].Raised?
    ensures |outs| < |Fields| - i ==> |outs| > 0 && outs[|outs| - 1].Raised?
    decreases |Fields| - i
  {
    if i == |Fields| then []
    else if FieldOutcomeAt(row, failing, i).Raised? then [FieldOutcomeAt(row, failing, i)]
    else
      FillFromCons(row, failing, i, FillFrom(row, failing, i + 1));
      [FieldOutcomeAt(row, failing, i)] + FillFrom(row, failing, i + 1)
  }

  /** A field that does not raise, in front of the loop's outcomes for the later fields. */
  lemma FillFromCons(row: Row, failing: set<Action>, i: nat, rest: seq<FieldOutcome>)
    requires i < |Fields| && !FieldOutcomeAt(row, failing, i).Raised?
    requires |rest| <= |Fields| - (i + 1)
    requires forall k :: 0 <= k < |rest| ==> rest[k] == FieldOutcomeAt(row, failing, i + 1 + k)
    requires forall k :: 0 <= k < |rest| - 1 ==> !rest[k].Raised?
    requires |rest| < |Fields| - (i + 1) ==> |rest| > 0 && rest[|rest| - 1].Raised?
    ensures var outs := [FieldOutcomeAt(row, failing, i)] + rest;
      && |outs| <= |Fields| - i
      && (forall k :: 0 <= k < |outs| ==> outs[k] == FieldOutcomeAt(row, failing, i + k))
      && (forall k :: 0 <= k < |outs| - 1 ==> !outs[k].Raised?)
      && (|outs| < |Fields| - i ==> |outs| > 0 && outs[|outs| - 1].Raised?)
  {
    var outs := [FieldOutcomeAt(row, failing, i)] + rest;
    forall k | 0 <= k < |outs|
      ensures outs[k] == FieldOutcomeAt(row, failing, i + k)
    {
      if k > 0 { assert outs[k] == rest[k - 1]; }
    }
  }

  /** The actions the outcomes stand for, skipped fields contributing none. */
  function ActionsOf(outs: seq<FieldOutcome>): (trace: seq<Action>)
    ensures forall a :: a in trace ==> exists k :: 0 <= k < |outs| && !outs[k].Skipped? && outs[k].action == a
    decreases |outs|
  {
    if |outs| == 0 then []
    else (if outs[0].Skipped? then [] else [outs[0].action]) + ActionsOf(outs[1..])
  }

  /** The field-filling part of `fill_order_form(row)`: it completes exactly
      when no select or text action raises, and a completed fill issues Head,
      Body, Legs and Address in table order, skipping empty values. */
  function FillFields(row: Row, failing: set<Action>): (r: Run)
    ensures r.Ok() <==> forall k :: 0 <= k < |Fields| ==> !RaisesAt(row, failing, k)
    ensures r.Ok() ==> r.trace == Planned(row)
    ensures !r.Ok() ==> r.fault.Some? && r.fault.value.ActionFailed? && r.fault.value.action in failing
  {
    NoEscapeIffNoRaise(row, failing);
    EscapeIsRejected(row, failing);
    if Escaped(FillFrom(row, failing, 0)).None? then
      CompleteFillIsPlanned(row, failing);
      Run(ActionsOf(FillFrom(row, failing, 0)), None)
    else
      Run(ActionsOf(FillFrom(row, failing, 0)), Escaped(FillFrom(row, failing, 0)))
  }

  /** The exception that ended the loop, if its last outcome raised. */
  function Escaped(outs: seq<FieldOutcome>): Option<Fault> {
    if |outs| > 0 && outs[|outs| - 1].Raised? then Some(ActionFailed(outs[|outs| - 1].action)) else None
  }

  lemma FieldsDistinct(i: nat, j: nat, a: Action)
    requires i < |Fields| && j < |Fields| && i != j
    requires Touches(a, Fields[i])
    ensures !Touches(a, Fields[j])
  {
  }

  /** Whether field `k` raises an exception that escapes. */
  predicate RaisesAt(row: Row, failing: set<Action>, k: nat)
    requires k < |Fields|
  {
    FieldOutcomeAt(row, failing, k).Raised?
  }

  /** The action for one control, or none when its value is empty. */
  function Apply(selector: string, value: string): seq<Action> {
    if value == "" then [] else [FieldAction(selector, value)]
  }

  /** What filling a row does when nothing escapes: Head, Body, Legs, Address, in
      that order, each skipped when its value is empty. */
  function Planned(row: Row): seq<Action> {
    Apply(HeadSelect, Lookup(row, "Head"))
      + Apply(BodyRadios, Lookup(row, "Body"))
      + Apply(LegsInput, Lookup(row, "Legs"))
      + Apply(AddressInput, Lookup(row, "Address"))
  }

  /** The actions of one outcome. */
  function ActionOf(o: FieldOutcome): seq<Action> {
    if o.Skipped? then [] else [o.action]
  }

  lemma ActionsOfCons(o: FieldOutcome, rest: seq<FieldOutcome>)
    ensures ActionsOf([o] + rest) == ActionOf(o) + ActionsOf(rest)
  {
    assert ([o] + rest)[1..] == rest;
  }

  lemma ActionsOfFour(o0: FieldOutcome, o1: FieldOutcome, o2: FieldOutcome, o3: FieldOutcome)
    ensures ActionsOf([o0, o1, o2, o3]) == ActionOf(o0) + ActionOf(o1) + ActionOf(o2) + ActionOf(o3)
  {
    assert ActionsOf([o3]) == ActionOf(o3) by { ActionsOfCons(o3, []); }
    ActionsOfCons(o2, [o3]);
    ActionsOfCons(o1, [o2, o3]);
    ActionsOfCons(o0, [o1, o2, o3]);
    assert [o2] + [o3] == [o2, o3];
    assert [o1] + [o2, o3] == [o1, o2, o3];
    assert [o0] + [o1, o2, o3] == [o0, o1, o2, o3];
    AppendFlattensFour(ActionOf(o0), ActionOf(o1), ActionOf(o2), ActionOf(o3));
  }

  /** Concatenation of four parts does not depend on grouping. */
  lemma AppendFlattensFour(a: seq<Action>, b: seq<Action>, c: seq<Action>, d: seq<Action>)
    ensures a + (b + (c + d)) == a + b + c + d
  {
  }

  /** The loop lets no exception escape exactly when no select or text action raises. */
  lemma NoEscapeIffNoRaise(row: Row, failing: set<Action>)
    ensures Escaped(FillFrom(row, failing, 0)).None? <==> forall k :: 0 <= k < |Fields| ==> !RaisesAt(row, failing, k)
  {
    var outs := FillFrom(row, failing, 0);
    assert outs[|outs| - 1] == FieldOutcomeAt(row, failing, |outs| - 1);
    if exists k :: 0 <= k < |Fields| && RaisesAt(row, failing, k) {
      var k :| 0 <= k < |Fields| && RaisesAt(row, failing, k);
      if |outs| == |Fields| {
        assert outs[k] == FieldOutcomeAt(row, failing, k);
      }
    } else {
      assert !RaisesAt(row, failing, |outs| - 1);
    }
  }

  /** A loop that let nothing escape issued the planned actions. */
  lemma CompleteFillIsPlanned(row: Row, failing: set<Action>)
    requires Escaped(FillFrom(row, failing, 0)).None?
    ensures ActionsOf(FillFrom(row, failing, 0)) == Planned(row)
  {
    NoEscapeIffNoRaise(row, failing);
    var outs := FillFrom(row, failing, 0);
    var o0 := FieldOutcomeAt(row, failing, 0);
    var o1 := FieldOutcomeAt(row, failing, 1);
    var o2 := FieldOutcomeAt(row, failing, 2);
    var o3 := FieldOutcomeAt(row, failing, 3);
    assert outs == [o0, o1, o2, o3];
    ActionsOfFour(o0, o1, o2, o3);
  }

  /** The exception that escapes is the rejected action of the field that raised. */
  lemma EscapeIsRejected(row: Row, failing: set<Action>)
    ensures Escaped(FillFrom(row, failing, 0)).Some? ==>
      Escaped(FillFrom(row, failing, 0)).value.ActionFailed? && Escaped(FillFrom(row, failing, 0)).value.action in failing
  {
    var outs := FillFrom(row, failing, 0);
    if |outs| > 0 {
      assert outs[|outs| - 1] == FieldOutcomeAt(row, failing, |outs| - 1);
    }
  }

  /** Two outcomes that differ at most in whether a radio failure was swallowed. */
  predicate SameEffect(o: FieldOutcome, p: FieldOutcome) {
    && o.Skipped? == p.Skipped?
    && o.Raised? == p.Raised?
    && (!o.Skipped? ==> o.action == p.action)
  }

  lemma {:induction false} SameEffectSameActions(os: seq<FieldOutcome>, ps: seq<FieldOutcome>)
    requires |os| == |ps|
    requires forall k :: 0 <= k < |os| ==> SameEffect(os[k], ps[k])
    ensures ActionsOf(os) == ActionsOf(ps)
    decreases |os|
  {
    if |os| > 0 {
      SameEffectSameActions(os[1..], ps[1..]);
    }
  }

  /** Only the fields that raise shape the fill: two browsers that agree on which
      fields raise produce the same run. */
  lemma SameRaisesSameFill(row: Row, f: set<Action>, g: set<Action>)
    requires forall k :: 0 <= k < |Fields| ==> RaisesAt(row, f, k) == RaisesAt(row, g, k)
    ensures FillFields(row, f) == FillFields(row, g)
  {
    var os := FillFrom(row, f, 0);
    var ps := FillFrom(row, g, 0);
    SameRaisesSameLength(row, f, g);
    SameRaisesSameLength(row, g, f);
    forall k | 0 <= k < |os|
      ensures SameEffect(os[k], ps[k])
    {
      assert os[k] == FieldOutcomeAt(row, f, k);
      assert ps[k] == FieldOutcomeAt(row, g, k);
      assert RaisesAt(row, f, k) == RaisesAt(row, g, k);
    }
    SameEffectSameActions(os, ps);
    SameEffectSameEscape(os, ps);
  }

  /** The loop stops no later under `g` than under `f` when they agree on raising. */
  lemma SameRaisesSameLength(row: Row, f: set<Action>, g: set<Action>)
    requires forall k :: 0 <= k < |Fields| ==> RaisesAt(row, f, k) == RaisesAt(row, g, k)
    ensures |FillFrom(row, g, 0)| <= |FillFrom(row, f, 0)|
  {
    var os := FillFrom(row, f, 0);
    var ps := FillFrom(row, g, 0);
    if |os| < |Fields| {
      assert RaisesAt(row, g, |os| - 1);
      if |os| - 1 < |ps| {
        assert ps[|os| - 1] == FieldOutcomeAt(row, g, |os| - 1);
      }
    }
  }

  lemma SameEffectSameEscape(os: seq<FieldOutcome>, ps: seq<FieldOutcome>)
    requires |os| == |ps|
    requires forall k :: 0 <= k < |os| ==> SameEffect(os[k], ps[k])
    ensures Escaped(os) == Escaped(ps)
  {
    if |os| > 0 {
      assert SameEffect(os[|os| - 1], ps[|os| - 1]);
    }
  }

  /** The browser with every radio click it rejects removed. */
  function AcceptRadioClicks(failing: set<Action>): set<Action> {
    set a | a in failing && !Touches(a, Fields[1])
  }

  /** A radio click that raises is swallowed: the run is the one a browser that
      accepted every radio click would give, so the later fields are still applied. */
  lemma RadioFailureSwallowed(row: Row, failing: set<Action>)
    ensures FillFields(row, failing) == FillFields(row, AcceptRadioClicks(failing))
  {
    var g := AcceptRadioClicks(failing);
    forall k | 0 <= k < |Fields|
      ensures RaisesAt(row, failing, k) == RaisesAt(row, g, k)
    {
      if k != 1 && Lookup(row, Fields[k].column) != "" {
        assert !Touches(FieldAction(Fields[k].selector, Lookup(row, Fields[k].column)), Fields[1]);
      }
    }
    SameRaisesSameFill(row, failing, g);
  }

  /** A control whose value is empty or absent receives no action at all. */
  lemma EmptyFieldUntouched(row: Row, failing: set<Action>, i: nat)
    requires i < |Fields|
    requires Lookup(row, Fields[i].column) == ""
    ensures forall a :: a in FillFields(row, failing).trace ==> !Touches(a, Fields[i])
  {
    var outs := FillFrom(row, failing, 0);
    forall a | a in FillFields(row, failing).trace
      ensures !Touches(a, Fields[i])
    {
      var k :| 0 <= k < |outs| && !outs[k].Skipped? && outs[k].action == a;
      assert outs[k] == FieldOutcomeAt(row, failing, k);
      assert Touches(a, Fields[k]);
      if k != i {
        FieldsDistinct(k, i, a);
      }
    }
  }
}
