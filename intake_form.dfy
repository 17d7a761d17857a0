/** The two-step contact form component (src/components/MainFeature.jsx):
    its state, its event handlers, the submission through the record-store
    service and the delayed reset that re-arms the form. */
module IntakeForm {
  import opened Wrappers
  import opened FormRules
  import opened ContactService
  import opened Text

  // ---------------------------------------------------------------------
  // The product checkbox list

  /** `xs.filter(item => item !== v)`. */
  function RemoveAll(xs: seq<string>, v: string): (r: seq<string>)
    ensures v !in r
    ensures forall x :: x in r <==> x in xs && x != v
    ensures |r| <= |xs|
  {
    if xs == [] then []
    else (if xs[0] == v then [] else [xs[0]]) + RemoveAll(xs[1..], v)
  }

  /** Filtering keeps the order of what stays: it distributes over concatenation. */
  lemma {:induction false} RemoveAllAppend(a: seq<string>, b: seq<string>, v: string)
    ensures RemoveAll(a + b, v) == RemoveAll(a, v) + RemoveAll(b, v)
  {
    if a != [] {
      assert (a + b)[1..] == a[1..] + b;
      RemoveAllAppend(a[1..], b, v);
    } else {
      assert a + b == b;
    }
  }

  /** Removing a value that is not there changes nothing. */
  lemma {:induction false} RemoveAllAbsent(xs: seq<string>, v: string)
    requires v !in xs
    ensures RemoveAll(xs, v) == xs
  {
    if xs != [] {
      RemoveAllAbsent(xs[1..], v);
    }
  }

  /** The list after a checkbox change event: checking appends `v` after
      the ids already there, unchecking removes every `v`, and no other id
      enters or leaves. */
  function Toggled(xs: seq<string>, v: string, checked: bool): (r: seq<string>)
    ensures checked ==> |r| == |xs| + 1 && r[..|xs|] == xs && r[|xs|] == v
    ensures !checked ==> v !in r
    ensures forall x :: x != v ==> (x in r <==> x in xs)
  {
    if checked then xs + [v] else RemoveAll(xs, v)
  }

  /** Checking `v` and then unchecking it removes every `v` and keeps the rest
      in order; when `v` was not selected before, the list is as it was. */
  lemma CheckThenUncheck(xs: seq<string>, v: string)
    ensures Toggled(Toggled(xs, v, true), v, false) == RemoveAll(xs, v)
    ensures v !in xs ==> Toggled(Toggled(xs, v, true), v, false) == xs
  {
    RemoveAllAppend(xs, [v], v);
    assert RemoveAll([v], v) == [];
    if v !in xs {
      RemoveAllAbsent(xs, v);
    }
  }

  /** Checking appends at the end and does not deduplicate. */
  lemma CheckTwiceDuplicates(xs: seq<string>, v: string)
    ensures Toggled(Toggled(xs, v, true), v, true) == xs + [v, v]
  {
  }

  predicate NoDuplicates(xs: seq<string>)
  {
    forall i, j :: 0 <= i < j < |xs| ==> xs[i] != xs[j]
  }

  lemma {:induction false} RemoveAllNoDuplicates(xs: seq<string>, v: string)
    requires NoDuplicates(xs)
    ensures NoDuplicates(RemoveAll(xs, v))
  {
    if xs != [] {
      assert NoDuplicates(xs[1..]) by {
        forall i, j | 0 <= i < j < |xs| - 1 ensures xs[1..][i] != xs[1..][j] {
          assert xs[1..][i] == xs[i + 1] && xs[1..][j] == xs[j + 1];
        }
      }
      RemoveAllNoDuplicates(xs[1..], v);
      assert xs[0] !in xs[1..] by {
        forall j | 0 <= j < |xs| - 1 ensures xs[1..][j] != xs[0] {
          assert xs[1..][j] == xs[j + 1];
        }
      }
    }
  }

  /** A checkbox is rendered checked exactly when its id is selected, so its
      change event reports `checked` only for an absent id. Under that
      discipline the list never holds an id twice, and an id is selected
      after the event exactly when the event checked it. */
  lemma ToggleKeepsNoDuplicates(xs: seq<string>, v: string, checked: bool)
    requires NoDuplicates(xs)
    requires checked ==> v !in xs
    ensures NoDuplicates(Toggled(xs, v, checked))
    ensures v in Toggled(xs, v, checked) <==> checked
  {
    if !checked {
      RemoveAllNoDuplicates(xs, v);
    } else {
      var r := xs + [v];
      forall i, j | 0 <= i < j < |r| ensures r[i] != r[j] {
        if j == |xs| {
          assert r[i] == xs[i];
        }
      }
    }
  }

  // ---------------------------------------------------------------------
  // The component

  /** The form component's state. */
  class IntakeForm {
    var formData: FormData
    var errors: map<Field, string>
    var currentStep: int
    var isSubmitting: bool
    var submitted: bool

    /** The step counter is 1 or 2. */
    ghost predicate Valid()
      reads this
    {
      currentStep == 1 || currentStep == 2
    }

    /** Step 2 is only shown for a record that passes the rules of step 1. */
    ghost predicate Step1Confirmed()
      reads this
    {
      currentStep == 2 ==> StepValid(formData, 1)
    }

    /** A field's error is shown when its message is non-empty. */
    predicate ErrorShown(f: Field)
      reads this
    {
      f in errors && errors[f] != []
    }

    /** The first render: an empty form on step 1. */
    constructor ()
      ensures Valid() && Step1Confirmed()
      ensures formData == DefaultForm && errors == map[]
      ensures currentStep == 1 && !isSubmitting && !submitted
    {
      formData := DefaultForm;
      errors := map[];
      currentStep := 1;
      isSubmitting := false;
      submitted := false;
    }

    /** `handleChange`: sets one text input and clears that field's error if
        one is shown; every other field and error stays. Editing a field of
        the step on display keeps step 1 confirmed. */
    method HandleChange(f: Field, value: string)
      requires IsTextField(f)
      modifies this`formData, this`errors
      ensures formData == WithText(old(formData), f, value)
      ensures errors == if old(ErrorShown(f)) then old(errors)[f := ""] else old(errors)
      ensures !ErrorShown(f)
      ensures forall g :: g != f ==> (ErrorShown(g) <==> old(ErrorShown(g)))
      ensures old(Step1Confirmed()) && StepOf(f) == currentStep ==> Step1Confirmed()
    {
      formData := WithText(formData, f, value);
      if f in errors && errors[f] != [] {
        errors := errors[f := ""];
      }
      if StepOf(f) == 2 {
        EditKeepsOtherStep(old(formData), f, value, 1);
      }
    }

    /** `handleCheckboxChange`: checking appends the id, unchecking removes
        every occurrence of it; nothing else changes. */
    method HandleCheckboxChange(value: string, checked: bool)
      modifies this`formData
      ensures formData == old(formData).(productInterest := Toggled(old(formData.productInterest), value, checked))
      ensures old(Step1Confirmed()) ==> Step1Confirmed()
    {
      if checked {
        formData := formData.(productInterest := formData.productInterest + [value]);
      } else {
        formData := formData.(productInterest := RemoveAll(formData.productInterest, value));
      }
      Step1ReadsContactFields(formData, old(formData));
    }

    /** `handleRequestTypeChange`. */
    method HandleRequestTypeChange(requestType: string)
      modifies this`formData
      ensures formData == old(formData).(requestType := requestType)
      ensures old(Step1Confirmed()) ==> Step1Confirmed()
    {
      formData := formData.(requestType := requestType);
      Step1ReadsContactFields(formData, old(formData));
    }

    /** `validateForm`: replaces the error map by the current step's and
        reports whether it is empty. */
    method ValidateForm() returns (ok: bool)
      modifies this`errors
      ensures errors == StepErrors(formData, currentStep)
      ensures ok <==> StepValid(formData, currentStep)
    {
      errors := StepErrors(formData, currentStep);
      ok := |errors| == 0;
    }

    /** `handleNextStep`: validates the current step and moves to step 2
        only when it passes; otherwise the step stays. */
    method HandleNextStep()
      requires Valid()
      modifies this`errors, this`currentStep
      ensures Valid()
      ensures errors == StepErrors(formData, old(currentStep))
      ensures currentStep == if StepValid(formData, old(currentStep)) then 2 else old(currentStep)
      ensures old(currentStep) == 1 ==> (currentStep == 2 <==> StepValid(formData, 1))
      ensures old(Step1Confirmed()) ==> Step1Confirmed()
    {
      var ok := ValidateForm();
      if ok {
        currentStep := 2;
      }
    }

    /** `handlePrevStep`: back to step 1, unconditionally. */
    method HandlePrevStep()
      modifies this`currentStep
      ensures currentStep == 1
      ensures Valid() && Step1Confirmed()
    {
      currentStep := 1;
    }

    /** `handleSubmit`, with the create call's outcome given as `reply`.
        When the current step fails its rules, the errors are set and nothing
        is sent. Otherwise the one record of the form is sent; `submitted`
        becomes true exactly when the store acknowledged it, and
        `isSubmitting` ends false either way. The form and the step are kept
        in every case, so a failed submission can be retried as it is. */
    method HandleSubmit(reply: Reply<MutationResponse>) returns (sent: Option<seq<NewRecord>>)
      requires Valid()
      modifies this
      ensures Valid()
      ensures formData == old(formData) && currentStep == old(currentStep)
      ensures errors == StepErrors(formData, currentStep)
      ensures sent.Some? <==> StepValid(formData, currentStep)
      ensures sent.Some? ==> sent.value == [ToRecord(formData)]
      ensures sent.None? ==> isSubmitting == old(isSubmitting) && submitted == old(submitted)
      ensures sent.Some? ==> !isSubmitting
      ensures sent.Some? ==> submitted == (old(submitted) || MutationResult(reply, CreateFailed).Success?)
      ensures Step1Confirmed() == old(Step1Confirmed())
      ensures sent.Some? && currentStep == 2 && Step1Confirmed() ==> StepValid(formData, 1) && StepValid(formData, 2)
    {
      var ok := ValidateForm();
      if !ok {
        sent := None;
        return;
      }
      isSubmitting := true;
      sent := Some(CreateRecords(formData));
      var result := MutationResult(reply, CreateFailed);
      if result.Success? {
        submitted := true;
      }
      isSubmitting := false;
    }

    /** The timer callback scheduled after a successful submission: the
        default record, `submitted` false, step 1. Errors and `isSubmitting`
        are not touched. */
    method ResetAfterDelay()
      modifies this`formData, this`submitted, this`currentStep
      ensures formData == DefaultForm && !submitted && currentStep == 1
      ensures formData.requestType == "quote" && formData.productInterest == []
      ensures Valid() && Step1Confirmed()
    {
      formData := DefaultForm;
      submitted := false;
      currentStep := 1;
    }
  }

  /** The example address has the email shape. */
  lemma ExampleEmailShape(e: string)
    requires e == "jane@co.com"
    ensures EmailShape(e)
  {
    assert IndexOf(e, '@') == 4 by {
      assert e[0] != '@' && e[1] != '@' && e[2] != '@' && e[3] != '@' && e[4] == '@';
    }
    assert e[..4] == "jane" && e[5..] == "co.com";
    ExampleParts();
  }

  /** The parts of the example address around its '@'. */
  lemma ExampleParts()
    ensures EmailRun("jane") && EmailRun("co.com") && HasInnerDot("co.com")
  {
    assert "co.com"[2] == '.';
  }

  /** Step 1 of the example request passes. */
  lemma ExampleContactPasses(fd: FormData)
    requires fd.name == "Jane Doe" && fd.email == "jane@co.com" && fd.company == "Acme" && fd.phone == ""
    ensures StepValid(fd, 1)
  {
    ExampleEmailShape(fd.email);
    EmailShapeMatchesPattern(fd.email);
    assert !IsSpace(fd.name[0]);
    assert !IsSpace(fd.company[0]);
    Step1ValidIff(fd);
  }

  /** Step 2 of the example request passes. */
  lemma ExampleDetailsPass(fd: FormData)
    requires fd.productInterest == ["cnc-components"] && fd.message == "Please quote this part"
    ensures StepValid(fd, 2)
  {
    TrimNoOuterSpace(fd.message);
    assert RuleMessage(fd, ProductInterest) == [];
    assert RuleMessage(fd, Message) == [];
  }
}
