/**
 * `utils.assignErrors` / `utils.assignError`: copies a server's field
 * errors into the scope's error map and marks each field's form control
 * invalid.
 */
module FormErrors {
  import opened Wrappers
  import opened JsStrings

  const MessageSeparator: string := ". "

  /**
   * One value of the errors object: an array of messages, a nested object
   * (name to value, in key order), or any other value (string, number,
   * boolean, null).
   */
  datatype ErrorValue =
    | Messages(list: seq<string>)
    | Keyed(entries: seq<(string, ErrorValue)>)
    | Scalar

  /**
   * The text shown for one field, or `None` where the source throws a
   * TypeError: only an array can be joined, so a nested object must have a
   * first key holding an array, and any other value has no `join`.
   */
  function DisplayMessage(v: ErrorValue): (m: Option<string>)
    ensures v.Messages? ==> m == Some(Join(v.list, MessageSeparator))
    ensures v.Scalar? ==> m == None
    ensures v.Keyed? ==> (m.Some? <==> |v.entries| > 0 && v.entries[0].1.Messages?)
    ensures v.Keyed? && m.Some? ==> m.value == Join(v.entries[0].1.list, MessageSeparator)
  {
    match v
    case Messages(list) => Some(Join(list, MessageSeparator))
    case Keyed(entries) =>
      if |entries| > 0 && entries[0].1.Messages? then Some(Join(entries[0].1.list, MessageSeparator))
      else None
    case Scalar => None
  }

  /** The form: the names of its controls and those marked invalid by `$setValidity`. */
  class Form {
    var controls: set<string>
    var invalid: set<string>

    constructor (controls0: set<string>, invalid0: set<string>)
      ensures controls == controls0 && invalid == invalid0
    {
      controls, invalid := controls0, invalid0;
    }
  }

  /** The scope's error messages, field name to text. */
  class ScopeErrors {
    var messages: map<string, string>

    constructor (messages0: map<string, string>)
      ensures messages == messages0
    {
      messages := messages0;
    }
  }

  /** How a run ends: normally, or by a TypeError thrown while handling the named field. */
  datatype Outcome = Completed | Threw(field: string)

  datatype FormState = FormState(invalid: set<string>, messages: map<string, string>)

  datatype Run = Run(state: FormState, outcome: Outcome)

  /** An entry the source handles without throwing. */
  predicate Assignable(entry: (string, ErrorValue), controls: set<string>)
  {
    DisplayMessage(entry.1).Some? && entry.0 in controls
  }

  function FieldNames(errors: seq<(string, ErrorValue)>): set<string>
  {
    set j | 0 <= j < |errors| :: errors[j].0
  }

  /** No later entry of `errors` has the same field name as entry `j`. */
  predicate LastOccurrence(errors: seq<(string, ErrorValue)>, j: int)
    requires 0 <= j < |errors|
  {
    forall k :: j < k < |errors| ==> errors[k].0 != errors[j].0
  }

  /** One iteration of the loop, on a state that has not thrown. */
  function Step(st: FormState, controls: set<string>, entry: (string, ErrorValue)): (r: Run)
    ensures r.outcome == Completed <==> Assignable(entry, controls)
    ensures r.outcome.Threw? ==> r.state == st && r.outcome.field == entry.0
    ensures r.outcome == Completed ==>
              r.state.invalid == st.invalid + {entry.0} &&
              r.state.messages.Keys == st.messages.Keys + {entry.0} &&
              Some(r.state.messages[entry.0]) == DisplayMessage(entry.1) &&
              forall f :: f in st.messages && f != entry.0 ==> r.state.messages[f] == st.messages[f]
  {
    match DisplayMessage(entry.1)
    case None => Run(st, Threw(entry.0))
    case Some(m) =>
      if entry.0 in controls then Run(FormState(st.invalid + {entry.0}, st.messages[entry.0 := m]), Completed)
      else Run(st, Threw(entry.0))
  }

  /** The effect of the whole loop over `errors`, entry by entry, stopping at the first throw. */
  function AssignAll(errors: seq<(string, ErrorValue)>, controls: set<string>, init: FormState): (r: Run)
    ensures init.invalid <= r.state.invalid <= init.invalid + controls
    ensures init.messages.Keys <= r.state.messages.Keys
    decreases |errors|
  {
    if errors == [] then Run(init, Completed)
    else
      var prev := AssignAll(errors[..|errors| - 1], controls, init);
      if prev.outcome.Threw? then prev else Step(prev.state, controls, errors[|errors| - 1])
  }

  /**
   * `assignError`: marks the field's control invalid and records the message;
   * a field without a control throws before anything is written.
   */
  method AssignError(message: string, form: Form, fieldName: string, scope: ScopeErrors) returns (ok: bool)
    modifies form`invalid, scope
    ensures ok <==> fieldName in form.controls
    ensures ok ==> form.invalid == old(form.invalid) + {fieldName} &&
                   scope.messages == old(scope.messages)[fieldName := message]
    ensures !ok ==> form.invalid == old(form.invalid) && scope.messages == old(scope.messages)
  {
    if fieldName !in form.controls {
      return false;
    }
    form.invalid := form.invalid + {fieldName};
    scope.messages := scope.messages[fieldName := message];
    ok := true;
  }

  /** `assignErrors`: runs `assignError` for every field of `errors`, in key order. */
  method AssignErrors(errors: seq<(string, ErrorValue)>, form: Form, scope: ScopeErrors) returns (outcome: Outcome)
    modifies form`invalid, scope
    ensures Run(FormState(form.invalid, scope.messages), outcome) ==
            AssignAll(errors, form.controls, FormState(old(form.invalid), old(scope.messages)))
  {
    ghost var init := FormState(form.invalid, scope.messages);
    var i := 0;
    while i < |errors|
      invariant 0 <= i <= |errors|
      invariant AssignAll(errors[..i], form.controls, init) == Run(FormState(form.invalid, scope.messages), Completed)
    {
      var (fieldName, value) := errors[i];
      assert errors[..i + 1][..i] == errors[..i];
      var message := DisplayMessage(value);
      if message.None? {
        ThrowPersists(errors, form.controls, init, i + 1);
        return Threw(fieldName);
      }
      var ok := AssignError(message.value, form, fieldName, scope);
      if !ok {
        ThrowPersists(errors, form.controls, init, i + 1);
        return Threw(fieldName);
      }
      i := i + 1;
    }
    assert errors[..i] == errors;
    outcome := Completed;
  }

  /** Once a prefix has thrown, the later entries change nothing. */
  lemma {:induction false} ThrowPersists(errors: seq<(string, ErrorValue)>, controls: set<string>, init: FormState, n: nat)
    requires n <= |errors|
    requires AssignAll(errors[..n], controls, init).outcome.Threw?
    ensures AssignAll(errors, controls, init) == AssignAll(errors[..n], controls, init)
    decreases |errors| - n
  {
    if n < |errors| {
      assert errors[..n + 1][..n] == errors[..n];
      ThrowPersists(errors, controls, init, n + 1);
    } else {
      assert errors[..n] == errors;
    }
  }

  /** The run completes exactly when every entry is assignable. */
  lemma {:induction false} CompletesIffAllAssignable(errors: seq<(string, ErrorValue)>, controls: set<string>, init: FormState)
    ensures AssignAll(errors, controls, init).outcome == Completed <==>
            forall j :: 0 <= j < |errors| ==> Assignable(errors[j], controls)
  {
    if errors != [] {
      var pre := errors[..|errors| - 1];
      CompletesIffAllAssignable(pre, controls, init);
      assert forall j :: 0 <= j < |pre| ==> pre[j] == errors[j];
    }
  }

  /** When every entry is assignable, exactly the fields named in `errors` are added to the invalid set. */
  lemma {:induction false} AssignAllMarksInvalid(errors: seq<(string, ErrorValue)>, controls: set<string>, init: FormState)
    requires forall j :: 0 <= j < |errors| ==> Assignable(errors[j], controls)
    ensures AssignAll(errors, controls, init).outcome == Completed
    ensures AssignAll(errors, controls, init).state.invalid == init.invalid + FieldNames(errors)
  {
    if errors != [] {
      var pre := errors[..|errors| - 1];
      var e := errors[|errors| - 1];
      assert forall j :: 0 <= j < |pre| ==> pre[j] == errors[j];
      AssignAllMarksInvalid(pre, controls, init);
      assert FieldNames(errors) == FieldNames(pre) + {e.0} by {
        assert errors == pre + [e];
      }
    }
  }

  /** When every entry is assignable, each field named in `errors` has a message. */
  lemma {:induction false} AssignAllNamesPresent(errors: seq<(string, ErrorValue)>, controls: set<string>, init: FormState)
    requires forall j :: 0 <= j < |errors| ==> Assignable(errors[j], controls)
    ensures forall j :: 0 <= j < |errors| ==> errors[j].0 in AssignAll(errors, controls, init).state.messages
  {
    if errors != [] {
      var pre := errors[..|errors| - 1];
      var e := errors[|errors| - 1];
      assert forall j :: 0 <= j < |pre| ==> pre[j] == errors[j];
      AssignAllNamesPresent(pre, controls, init);
      CompletesIffAllAssignable(pre, controls, init);
      var st := AssignAll(pre, controls, init).state;
      assert AssignAll(errors, controls, init) == Step(st, controls, e);
      forall j | 0 <= j < |errors|
        ensures errors[j].0 in AssignAll(errors, controls, init).state.messages
      {
        if j < |pre| {
          assert errors[j].0 in st.messages;
        }
      }
    }
  }

  /**
   * When every entry is assignable, each field named in `errors` holds the
   * joined messages of its last entry.
   */
  lemma {:induction false} AssignAllWritesMessages(errors: seq<(string, ErrorValue)>, controls: set<string>, init: FormState)
    requires forall j :: 0 <= j < |errors| ==> Assignable(errors[j], controls)
    ensures forall j :: 0 <= j < |errors| && LastOccurrence(errors, j) ==>
              errors[j].0 in AssignAll(errors, controls, init).state.messages &&
              Some(AssignAll(errors, controls, init).state.messages[errors[j].0]) == DisplayMessage(errors[j].1)
  {
    if errors != [] {
      var pre := errors[..|errors| - 1];
      var e := errors[|errors| - 1];
      assert forall j :: 0 <= j < |pre| ==> pre[j] == errors[j];
      AssignAllWritesMessages(pre, controls, init);
      CompletesIffAllAssignable(pre, controls, init);
      AssignAllNamesPresent(pre, controls, init);
      var st := AssignAll(pre, controls, init).state;
      var m := DisplayMessage(e.1).value;
      assert AssignAll(errors, controls, init) == Step(st, controls, e);
      var after := AssignAll(errors, controls, init).state;
      assert after.messages == st.messages[e.0 := m];
      AssignAllNamesPresent(errors, controls, init);
      forall j | 0 <= j < |errors| && LastOccurrence(errors, j)
        ensures Some(after.messages[errors[j].0]) == DisplayMessage(errors[j].1)
      {
        if j < |pre| {
          assert errors[j].0 != e.0;
          assert LastOccurrence(pre, j);
        }
      }
    }
  }

  /**
   * When every entry is assignable, a field not named in `errors` keeps its
   * message, or its lack of one.
   */
  lemma {:induction false} AssignAllKeepsOthers(errors: seq<(string, ErrorValue)>, controls: set<string>, init: FormState, f: string)
    requires forall j :: 0 <= j < |errors| ==> Assignable(errors[j], controls)
    requires f !in FieldNames(errors)
    ensures f in AssignAll(errors, controls, init).state.messages <==> f in init.messages
    ensures f in init.messages ==> AssignAll(errors, controls, init).state.messages[f] == init.messages[f]
  {
    if errors != [] {
      var pre := errors[..|errors| - 1];
      var e := errors[|errors| - 1];
      assert forall j :: 0 <= j < |pre| ==> pre[j] == errors[j];
      assert errors[|errors| - 1].0 in FieldNames(errors);
      AssignAllKeepsOthers(pre, controls, init, f);
      CompletesIffAllAssignable(pre, controls, init);
    }
  }

  /**
   * A failing entry stops the run: the fields before it have been written,
   * it and the ones after it have not, and the TypeError names its field.
   */
  lemma StopsAtFirstFailure(errors: seq<(string, ErrorValue)>, controls: set<string>, init: FormState, j: nat)
    requires j < |errors|
    requires forall k :: 0 <= k < j ==> Assignable(errors[k], controls)
    requires !Assignable(errors[j], controls)
    ensures AssignAll(errors, controls, init) == Run(AssignAll(errors[..j], controls, init).state, Threw(errors[j].0))
  {
    var pre := errors[..j];
    assert forall k :: 0 <= k < |pre| ==> pre[k] == errors[k];
    CompletesIffAllAssignable(pre, controls, init);
    assert errors[..j + 1][..j] == pre;
    ThrowPersists(errors, controls, init, j + 1);
  }
}
