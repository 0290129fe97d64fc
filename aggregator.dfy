/**
 * The behaviour aggregator: one wizard step made of an ordered list of sub-behaviours. Each
 * request hook runs on every sub-behaviour that declares it, and their answers are merged in
 * declaration order: the first error wins, values and validation errors merge first-in-wins
 * (lodash defaultsDeep), locals merge last-in-wins (Object.assign) and rendering is left to
 * the last sub-behaviour. The answers arrive asynchronously, but Promise.all keeps them in
 * declaration order, so the model takes them as a sequence.
 */
module Aggregator {
  import opened Common
  import Session

  /** The form-controller hooks a sub-behaviour may declare. */
  datatype Hook = Configure | GetValues | Locals | Render | Process | Validate | SaveValues

  /** A sub-behaviour: the hooks its own class declares, and its useDefaultButtons property. */
  datatype Behaviour = Behaviour(declares: set<Hook>, useDefaultButtons: Option<bool>)

  /** A value in a form-values or errors object: a string or a nested record of strings. */
  datatype Entry = Leaf(text: string) | Record(fields: map<string, string>)

  type Values = map<string, Entry>

  /** The arguments a hook passes to its callback, by name: err, values and errors. */
  datatype Callback = Callback(err: Option<string>, values: Option<Values>, errors: Option<Values>)

  /** The options aggregate is called with; the request and response are left implicit. */
  datatype AggregateOptions = AggregateOptions(fn: Hook, defaultToBaseFn: bool)

  /** The indices of the sub-behaviours that declare `fn`, in declaration order. */
  function Calls(behaviours: seq<Behaviour>, fn: Hook): (r: seq<nat>)
    ensures forall k :: 0 <= k < |r| ==> r[k] < |behaviours| && fn in behaviours[r[k]].declares
    ensures forall k, j :: 0 <= k < j < |r| ==> r[k] < r[j]
    ensures forall i :: 0 <= i < |behaviours| && fn in behaviours[i].declares ==> i in r
  {
    if behaviours == [] then []
    else
      var prefix := Calls(behaviours[..|behaviours| - 1], fn);
      if fn in behaviours[|behaviours| - 1].declares then prefix + [|behaviours| - 1] else prefix
  }

  /**
   * aggregate: the callback answers of the sub-behaviours that declare the hook, in declaration
   * order; the base controller's answer alone when none declares it and defaultToBaseFn is set.
   * `answers[i]` is what sub-behaviour i answers when called, `base` what the base controller
   * answers. Without options it throws.
   */
  function Aggregate(options: Option<AggregateOptions>, behaviours: seq<Behaviour>,
                     answers: seq<Callback>, base: Callback): (r: Outcome<seq<Callback>>)
    requires |answers| == |behaviours|
    ensures r.Thrown? <==> options.None?
    ensures r.Done? && |Calls(behaviours, options.value.fn)| > 0 ==>
      |r.value| == |Calls(behaviours, options.value.fn)|
      && forall k :: 0 <= k < |r.value| ==> r.value[k] == answers[Calls(behaviours, options.value.fn)[k]]
    ensures r.Done? && |Calls(behaviours, options.value.fn)| == 0 ==>
      r.value == (if options.value.defaultToBaseFn then [base] else [])
  {
    if options.None? then Thrown("No options provided to aggregate")
    else
      var calls := Calls(behaviours, options.value.fn);
      var called := seq(|calls|, k requires 0 <= k < |calls| => answers[calls[k]]);
      if |called| == 0 && options.value.defaultToBaseFn then Done([base]) else Done(called)
  }

  /** `_.find(results, r => !!r.err)`: the error of the first answer carrying one. */
  function FirstError(results: seq<Callback>): (e: Option<string>)
    ensures e.None? <==> forall k :: 0 <= k < |results| ==> results[k].err.None?
    ensures e.Some? ==>
      exists k :: 0 <= k < |results| && results[k].err == e && forall j :: 0 <= j < k ==> results[j].err.None?
  {
    if results == [] then None
    else if results[0].err.Some? then results[0].err
    else
      var e := FirstError(results[1..]);
      if e.Some? then
        var k :| 0 <= k < |results[1..]| && results[1..][k].err == e
                 && forall j :: 0 <= j < k ==> results[1..][j].err.None?;
        assert results[k + 1].err == e;
        assert forall j :: 0 <= j < k + 1 ==> results[j].err.None? by {
          forall j | 0 <= j < k + 1 ensures results[j].err.None? {
            if j > 0 { assert results[j] == results[1..][j - 1]; }
          }
        }
        e
      else
        assert forall k :: 0 <= k < |results| ==> results[k].err.None? by {
          forall k | 0 <= k < |results| ensures results[k].err.None? {
            if k > 0 { assert results[k] == results[1..][k - 1]; }
          }
        }
        e
  }

  /** Answers after the first error never change the error passed on. */
  lemma {:induction false} FirstErrorIgnoresLater(results: seq<Callback>, later: seq<Callback>)
    requires FirstError(results).Some?
    ensures FirstError(results + later) == FirstError(results)
  {
    assert results != [];
    assert (results + later)[0] == results[0];
    if results[0].err.None? {
      assert (results + later)[1..] == results[1..] + later;
      FirstErrorIgnoresLater(results[1..], later);
    }
  }

  /**
   * The first error among the answers aggregate collects is the first error, in declaration
   * order, of the sub-behaviours that declare the hook.
   */
  lemma FirstErrorOfCalls(behaviours: seq<Behaviour>, fn: Hook, answers: seq<Callback>, base: Callback)
    requires |answers| == |behaviours|
    ensures var e := FirstError(Aggregate(Some(AggregateOptions(fn, false)), behaviours, answers, base).value);
      && (e.None? <==> forall k :: 0 <= k < |behaviours| && fn in behaviours[k].declares ==> answers[k].err.None?)
      && (e.Some? ==>
            exists k :: 0 <= k < |behaviours| && fn in behaviours[k].declares && answers[k].err == e
                        && forall j :: 0 <= j < k && fn in behaviours[j].declares ==> answers[j].err.None?)
  {
    var calls := Calls(behaviours, fn);
    var results := Aggregate(Some(AggregateOptions(fn, false)), behaviours, answers, base).value;
    assert |calls| == 0 ==> results == [];
    assert |results| == |calls|;
    assert forall m :: 0 <= m < |calls| ==> results[m] == answers[calls[m]];
    if FirstError(results).Some? {
      FirstCalledError(behaviours, fn, answers, calls, results);
    } else {
      NoCalledError(behaviours, fn, answers, calls, results);
    }
  }

  /** The first error among the called answers is the error of the first called sub-behaviour with one. */
  lemma FirstCalledError(behaviours: seq<Behaviour>, fn: Hook, answers: seq<Callback>, calls: seq<nat>,
                         results: seq<Callback>)
    requires |answers| == |behaviours| && calls == Calls(behaviours, fn)
    requires |results| == |calls| && forall m :: 0 <= m < |calls| ==> results[m] == answers[calls[m]]
    requires FirstError(results).Some?
    ensures exists k :: 0 <= k < |behaviours| && fn in behaviours[k].declares && answers[k].err == FirstError(results)
                        && forall j :: 0 <= j < k && fn in behaviours[j].declares ==> answers[j].err.None?
  {
    var e := FirstError(results);
    var k :| 0 <= k < |results| && results[k].err == e && forall j :: 0 <= j < k ==> results[j].err.None?;
    forall j | 0 <= j < calls[k] && fn in behaviours[j].declares
      ensures answers[j].err.None?
    {
      var m :| 0 <= m < |calls| && calls[m] == j;
      assert m < k;
    }
    assert answers[calls[k]].err == e;
  }

  /** When no called answer carries an error, no sub-behaviour declaring the hook answered one. */
  lemma NoCalledError(behaviours: seq<Behaviour>, fn: Hook, answers: seq<Callback>, calls: seq<nat>,
                      results: seq<Callback>)
    requires |answers| == |behaviours| && calls == Calls(behaviours, fn)
    requires |results| == |calls| && forall m :: 0 <= m < |calls| ==> results[m] == answers[calls[m]]
    requires FirstError(results).None?
    ensures forall k :: 0 <= k < |behaviours| && fn in behaviours[k].declares ==> answers[k].err.None?
  {
    forall j | 0 <= j < |behaviours| && fn in behaviours[j].declares
      ensures answers[j].err.None?
    {
      var m :| 0 <= m < |calls| && calls[m] == j;
      assert results[m] == answers[j];
    }
  }

  /** `_.defaults` on records of strings: keys of `a` keep their values, `b` fills the gaps. */
  function Defaults(a: map<string, string>, b: map<string, string>): (r: map<string, string>)
    ensures r.Keys == a.Keys + b.Keys
    ensures forall k :: k in r ==> r[k] == (if k in a then a[k] else b[k])
  {
    b + a
  }

  /**
   * `_.defaultsDeep(a, b)`: a key missing from `a` takes b's value, a key present in both as
   * records merges their fields the same way, and any other key of `a` keeps its value.
   */
  function DefaultsDeep(a: Values, b: Values): (r: Values)
    ensures r.Keys == a.Keys + b.Keys
    ensures forall k :: k in b && k !in a ==> r[k] == b[k]
    ensures forall k :: k in a && !(a[k].Record? && k in b && b[k].Record?) ==> r[k] == a[k]
    ensures forall k :: k in a && a[k].Record? && k in b && b[k].Record? ==>
      r[k] == Record(Defaults(a[k].fields, b[k].fields))
  {
    map k | k in a.Keys + b.Keys ::
      if k !in a then b[k]
      else if a[k].Record? && k in b && b[k].Record? then Record(Defaults(a[k].fields, b[k].fields))
      else a[k]
  }

  /** The successive defaultsDeep merges of the objects present, starting from {}. */
  function MergeFirst(ms: seq<Option<Values>>): Values
  {
    if ms == [] then map[]
    else
      var acc := MergeFirst(ms[..|ms| - 1]);
      var last := ms[|ms| - 1];
      if last.Some? then DefaultsDeep(acc, last.value) else acc
  }

  predicate Has(m: Option<Values>, k: string)
  {
    m.Some? && k in m.value
  }

  /** The first object that has key `k`. */
  function FirstAt(ms: seq<Option<Values>>, k: string): (i: Option<nat>)
    ensures i.Some? ==> i.value < |ms| && Has(ms[i.value], k)
    ensures i.Some? ==> forall j :: 0 <= j < i.value ==> !Has(ms[j], k)
    ensures i.None? ==> forall j :: 0 <= j < |ms| ==> !Has(ms[j], k)
  {
    if ms == [] then None
    else
      var p := FirstAt(ms[..|ms| - 1], k);
      if p.Some? then p
      else if Has(ms[|ms| - 1], k) then Some(|ms| - 1)
      else None
  }

  predicate HasField(m: Option<Values>, k: string, f: string)
  {
    Has(m, k) && m.value[k].Record? && f in m.value[k].fields
  }

  /** The first object whose key `k` holds a record with field `f`. */
  function FirstFieldAt(ms: seq<Option<Values>>, k: string, f: string): (i: Option<nat>)
    ensures i.Some? ==> i.value < |ms| && HasField(ms[i.value], k, f)
    ensures i.Some? ==> forall j :: 0 <= j < i.value ==> !HasField(ms[j], k, f)
    ensures i.None? ==> forall j :: 0 <= j < |ms| ==> !HasField(ms[j], k, f)
  {
    if ms == [] then None
    else
      var p := FirstFieldAt(ms[..|ms| - 1], k, f);
      if p.Some? then p
      else if HasField(ms[|ms| - 1], k, f) then Some(|ms| - 1)
      else None
  }

  /**
   * First in wins: a merged key is present iff some object has it; the first object that has it
   * decides its value when that is a string, and when it is a record, every field comes from the
   * first object holding a record with that field under the key.
   */
  lemma {:induction false} MergeFirstWins(ms: seq<Option<Values>>, k: string)
    ensures k in MergeFirst(ms) <==> FirstAt(ms, k).Some?
    ensures FirstAt(ms, k).Some? && ms[FirstAt(ms, k).value].value[k].Leaf? ==>
      MergeFirst(ms)[k] == ms[FirstAt(ms, k).value].value[k]
    ensures FirstAt(ms, k).Some? && ms[FirstAt(ms, k).value].value[k].Record? ==>
      MergeFirst(ms)[k].Record?
      && forall f :: (f in MergeFirst(ms)[k].fields <==> FirstFieldAt(ms, k, f).Some?)
    ensures FirstAt(ms, k).Some? && ms[FirstAt(ms, k).value].value[k].Record? ==>
      forall f :: f in MergeFirst(ms)[k].fields ==>
        MergeFirst(ms)[k].fields[f] == ms[FirstFieldAt(ms, k, f).value].value[k].fields[f]
  {
    if ms != [] {
      var pre := ms[..|ms| - 1];
      var last := ms[|ms| - 1];
      MergeFirstWins(pre, k);
      assert forall j :: 0 <= j < |pre| ==> pre[j] == ms[j];
      if FirstAt(pre, k).Some? {
        var i := FirstAt(pre, k).value;
        assert FirstAt(ms, k) == Some(i);
        if ms[i].value[k].Record? {
          forall f
            ensures f in MergeFirst(ms)[k].fields <==> FirstFieldAt(ms, k, f).Some?
            ensures f in MergeFirst(ms)[k].fields ==>
              MergeFirst(ms)[k].fields[f] == ms[FirstFieldAt(ms, k, f).value].value[k].fields[f]
          {
            if FirstFieldAt(pre, k, f).Some? {
              assert FirstFieldAt(ms, k, f) == FirstFieldAt(pre, k, f);
            }
          }
        }
      }
    }
  }

  /** The values objects the answers pass, in order. */
  function ValuesList(rs: seq<Callback>): (r: seq<Option<Values>>)
    ensures |r| == |rs| && forall i :: 0 <= i < |rs| ==> r[i] == rs[i].values
  {
    if rs == [] then [] else ValuesList(rs[..|rs| - 1]) + [rs[|rs| - 1].values]
  }

  /** The errors objects the answers pass, in order. */
  function ErrorsList(rs: seq<Callback>): (r: seq<Option<Values>>)
    ensures |r| == |rs| && forall i :: 0 <= i < |rs| ==> r[i] == rs[i].errors
  {
    if rs == [] then [] else ErrorsList(rs[..|rs| - 1]) + [rs[|rs| - 1].errors]
  }

  /** validate's merge: null when no answer has errors, else the first-in-wins merge of them. */
  function MergeErrors(rs: seq<Callback>): (r: Option<Values>)
  {
    if forall i :: 0 <= i < |rs| ==> rs[i].errors.None? then None
    else Some(MergeFirst(ErrorsList(rs)))
  }

  /** Merging only absent objects gives the empty object. */
  lemma {:induction false} MergeFirstOfNothing(ms: seq<Option<Values>>)
    requires forall i :: 0 <= i < |ms| ==> ms[i].None?
    ensures MergeFirst(ms) == map[]
  {
    if ms != [] {
      MergeFirstOfNothing(ms[..|ms| - 1]);
    }
  }

  /** One more answer extends the getValues merge by one defaultsDeep. */
  lemma MergeValuesStep(rs: seq<Callback>, i: nat)
    requires i < |rs|
    ensures MergeFirst(ValuesList(rs[..i + 1])) ==
      if rs[i].values.Some? then DefaultsDeep(MergeFirst(ValuesList(rs[..i])), rs[i].values.value)
      else MergeFirst(ValuesList(rs[..i]))
  {
    assert rs[..i + 1][..i] == rs[..i];
  }

  /** One more answer extends validate's merge: the first errors object starts it. */
  lemma MergeErrorsStep(rs: seq<Callback>, i: nat)
    requires i < |rs|
    ensures MergeErrors(rs[..i + 1]) ==
      if rs[i].errors.None? then MergeErrors(rs[..i])
      else if MergeErrors(rs[..i]).Some? then Some(DefaultsDeep(MergeErrors(rs[..i]).value, rs[i].errors.value))
      else rs[i].errors
  {
    var pre := rs[..i];
    var ext := rs[..i + 1];
    assert ext[..i] == pre;
    assert forall j :: 0 <= j < i ==> ext[j] == pre[j];
    assert ext[i] == rs[i];
    if rs[i].errors.Some? && MergeErrors(pre).None? {
      MergeFirstOfNothing(ErrorsList(pre));
      assert DefaultsDeep(map[], rs[i].errors.value) == rs[i].errors.value;
    }
  }

  /** `locals.buttons` */
  datatype Button = Button(id: string, name: string, value: string)

  /** A value in the locals handed to the template. */
  datatype Local = LText(text: string) | LFlag(flag: bool) | LButtons(buttons: seq<Button>)

  type LocalsMap = map<string, Local>

  /** The successive Object.assign of the layers, starting from {}. */
  function AssignAll(layers: seq<LocalsMap>): LocalsMap
  {
    if layers == [] then map[] else AssignAll(layers[..|layers| - 1]) + layers[|layers| - 1]
  }

  /** The last layer that has key `k`. */
  function LastAt(layers: seq<LocalsMap>, k: string): (i: Option<nat>)
    ensures i.Some? ==> i.value < |layers| && k in layers[i.value]
    ensures i.Some? ==> forall j :: i.value < j < |layers| ==> k !in layers[j]
    ensures i.None? ==> forall j :: 0 <= j < |layers| ==> k !in layers[j]
  {
    if layers == [] then None
    else if k in layers[|layers| - 1] then Some(|layers| - 1)
    else
      var p := LastAt(layers[..|layers| - 1], k);
      assert forall j :: 0 <= j < |layers| - 1 ==> layers[..|layers| - 1][j] == layers[j];
      p
  }

  /** Last in wins: a key is present iff some layer has it, with the value of the last such layer. */
  lemma {:induction false} AssignLastWins(layers: seq<LocalsMap>, k: string)
    ensures k in AssignAll(layers) <==> LastAt(layers, k).Some?
    ensures k in AssignAll(layers) ==> AssignAll(layers)[k] == layers[LastAt(layers, k).value][k]
  {
    if layers != [] && k !in layers[|layers| - 1] {
      AssignLastWins(layers[..|layers| - 1], k);
    }
  }

  /** `locals.buttons || []`; a buttons local that is not a list is read as no buttons. */
  function ButtonsOf(locals: LocalsMap): seq<Button>
  {
    if "buttons" in locals && locals["buttons"].LButtons? then locals["buttons"].buttons else []
  }

  /** The button appended unless the last sub-behaviour sets useDefaultButtons to false. */
  function DefaultButtons(last: Behaviour, tr: string -> string): (r: seq<Button>)
    ensures r == [] <==> last.useDefaultButtons == Some(false)
    ensures r != [] ==> r == [Button("continue", "continue", tr("buttons.continue"))]
  {
    if last.useDefaultButtons != Some(false) then [Button("continue", "continue", tr("buttons.continue"))] else []
  }

  /** The form values of the session's errorValues, undefined when it holds none. */
  function ErrorValues(session: Session.SessionModel): (r: Option<map<string, string>>)
    reads session
    ensures r.Some? <==> "errorValues" in session.attributes && session.attributes["errorValues"].Form?
  {
    if "errorValues" in session.attributes && session.attributes["errorValues"].Form? then
      Some(session.attributes["errorValues"].fields)
    else None
  }

  /** A string-valued form object read as a values object. */
  function AsValues(m: map<string, string>): (r: Values)
    ensures r.Keys == m.Keys && forall k :: k in m ==> r[k] == Leaf(m[k])
  {
    map k | k in m :: Leaf(m[k])
  }

  class AggregatorController {
    /** The sub-controllers, one per configured sub-behaviour, in order. */
    var behaviours: seq<Behaviour>

    /** Builds one sub-controller per sub-behaviour, pushing them in order. */
    constructor (subBehaviours: seq<Behaviour>)
      ensures behaviours == subBehaviours
    {
      var built: seq<Behaviour> := [];
      var i := 0;
      while i < |subBehaviours|
        invariant 0 <= i <= |subBehaviours|
        invariant built == subBehaviours[..i]
      {
        built := built + [subBehaviours[i]];
        i := i + 1;
      }
      behaviours := built;
    }

    /**
     * configure, process and saveValues: the error passed to next is the first error answered by
     * a sub-behaviour declaring the hook, in declaration order; the base controller is not called
     * in their place (configure calls it beforehand and ignores its error).
     */
    function HookError(fn: Hook, answers: seq<Callback>, base: Callback): (e: Option<string>)
      reads this
      requires fn == Configure || fn == Process || fn == SaveValues
      requires |answers| == |behaviours|
      ensures e.None? <==> forall k :: 0 <= k < |behaviours| && fn in behaviours[k].declares ==> answers[k].err.None?
      ensures e.Some? ==>
        exists k :: 0 <= k < |behaviours| && fn in behaviours[k].declares && answers[k].err == e
                    && forall j :: 0 <= j < k && fn in behaviours[j].declares ==> answers[j].err.None?
    {
      FirstErrorOfCalls(behaviours, fn, answers, base);
      FirstError(Aggregate(Some(AggregateOptions(fn, false)), behaviours, answers, base).value)
    }

    /**
     * getValues: with form errors on the request, the session's errorValues and no error;
     * otherwise the first error answered and the first-in-wins merge of the values answered,
     * falling back to the base controller when no sub-behaviour declares getValues.
     */
    method GetValuesHook(session: Session.SessionModel, formErrors: Option<map<string, string>>,
                         answers: seq<Callback>, base: Callback)
      returns (err: Option<string>, values: Option<Values>)
      requires |answers| == |behaviours|
      ensures formErrors.Some? && formErrors.value != map[] ==>
        err.None? && values == (if ErrorValues(session).Some? then Some(AsValues(ErrorValues(session).value)) else None)
      ensures !(formErrors.Some? && formErrors.value != map[]) ==>
        var results := Aggregate(Some(AggregateOptions(GetValues, true)), behaviours, answers, base).value;
        err == FirstError(results) && values == Some(MergeFirst(ValuesList(results)))
    {
      var results := Aggregate(Some(AggregateOptions(GetValues, true)), behaviours, answers, base).value;
      var e := FirstError(results);
      var merged: Values := map[];
      var i := 0;
      while i < |results|
        invariant 0 <= i <= |results|
        invariant merged == MergeFirst(ValuesList(results[..i]))
      {
        MergeValuesStep(results, i);
        if results[i].values.Some? {
          merged := DefaultsDeep(merged, results[i].values.value);
        }
        i := i + 1;
      }
      assert results[..|results|] == results;
      if formErrors.Some? && formErrors.value != map[] {
        var stored := ErrorValues(session);
        err := None;
        values := if stored.Some? then Some(AsValues(stored.value)) else None;
      } else {
        err := e;
        values := Some(merged);
      }
    }

    /**
     * validate: null when no sub-behaviour declaring validate answers errors, else their
     * first-in-wins merge.
     */
    method ValidateHook(answers: seq<Callback>, base: Callback) returns (errors: Option<Values>)
      requires |answers| == |behaviours|
      ensures errors == MergeErrors(Aggregate(Some(AggregateOptions(Validate, false)), behaviours, answers, base).value)
    {
      var results := Aggregate(Some(AggregateOptions(Validate, false)), behaviours, answers, base).value;
      errors := None;
      var i := 0;
      while i < |results|
        invariant 0 <= i <= |results|
        invariant errors == MergeErrors(results[..i])
      {
        MergeErrorsStep(results, i);
        if results[i].errors.Some? {
          errors := if errors.Some? then Some(DefaultsDeep(errors.value, results[i].errors.value)) else results[i].errors;
        }
        i := i + 1;
      }
      assert results[..|results|] == results;
    }

    /**
     * locals: the base locals, then every sub-behaviour's locals, last in wins; then the buttons
     * list, with the continue button appended unless the last sub-behaviour opts out. With no
     * sub-behaviour there is no last one and the hook throws.
     */
    method LocalsHook(baseLocals: LocalsMap, behaviourLocals: seq<LocalsMap>, tr: string -> string)
      returns (r: Outcome<LocalsMap>)
      requires |behaviourLocals| == |behaviours|
      ensures r.Thrown? <==> |behaviours| == 0
      ensures r.Done? ==>
        var merged := AssignAll([baseLocals] + behaviourLocals);
        r.value == merged["buttons" := LButtons(ButtonsOf(merged) + DefaultButtons(behaviours[|behaviours| - 1], tr))]
    {
      var locals := map[] + baseLocals;
      assert locals == AssignAll([baseLocals]);
      var i := 0;
      while i < |behaviourLocals|
        invariant 0 <= i <= |behaviourLocals|
        invariant locals == AssignAll([baseLocals] + behaviourLocals[..i])
      {
        assert ([baseLocals] + behaviourLocals[..i + 1])[..i + 1] == [baseLocals] + behaviourLocals[..i];
        locals := locals + behaviourLocals[i];
        i := i + 1;
      }
      assert behaviourLocals[..|behaviourLocals|] == behaviourLocals;
      var buttons := ButtonsOf(locals);
      if |behaviours| == 0 {
        return Thrown("Cannot read property 'useDefaultButtons' of undefined");
      }
      buttons := buttons + DefaultButtons(behaviours[|behaviours| - 1], tr);
      r := Done(locals["buttons" := LButtons(buttons)]);
    }

    /** render: the index of the sub-behaviour that renders the page, the last one. */
    function RenderedBy(): (r: Outcome<nat>)
      reads this
      ensures r.Thrown? <==> |behaviours| == 0
      ensures r.Done? ==> r.value + 1 == |behaviours|
    {
      if |behaviours| == 0 then Outcome<nat>.Thrown("Cannot read property 'render' of undefined")
      else Done(|behaviours| - 1)
    }
  }

  /** Under a first layer, the last layer holding a key is found one further on, or is the first. */
  lemma {:induction false} LastAtBelowFirst(first: LocalsMap, rest: seq<LocalsMap>, k: string)
    ensures LastAt([first] + rest, k) ==
      (if LastAt(rest, k).Some? then Some(LastAt(rest, k).value + 1)
       else if k in first then Some(0) else None)
  {
    if rest != [] {
      assert ([first] + rest)[..|rest|] == [first] + rest[..|rest| - 1];
      if k !in rest[|rest| - 1] {
        LastAtBelowFirst(first, rest[..|rest| - 1], k);
      }
    }
  }

  /**
   * The locals of the page: a key other than buttons shows the value of the last sub-behaviour
   * that sets it, or the base controller's when none does.
   */
  lemma LocalsLastWins(baseLocals: LocalsMap, behaviourLocals: seq<LocalsMap>, k: string)
    requires k != "buttons"
    ensures var merged := AssignAll([baseLocals] + behaviourLocals);
      (k in merged <==> k in baseLocals || exists i :: 0 <= i < |behaviourLocals| && k in behaviourLocals[i])
      && (k in merged ==> merged[k] == (if LastAt(behaviourLocals, k).Some? then behaviourLocals[LastAt(behaviourLocals, k).value][k]
                                        else baseLocals[k]))
  {
    var layers := [baseLocals] + behaviourLocals;
    AssignLastWins(layers, k);
    LastAtBelowFirst(baseLocals, behaviourLocals, k);
    var last := LastAt(behaviourLocals, k);
    if last.Some? {
      assert layers[last.value + 1] == behaviourLocals[last.value];
    }
  }

}
