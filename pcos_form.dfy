/**
 * The intake form's state and its transitions: field edits, the effect that
 * re-derives BMI whenever weight or height changes, and the submission
 * cycle (press submit, the prediction response, the delayed reset of the
 * submitting flag, closing the results).
 *
 * The network call and the 1500 ms timer are not run: the request in flight
 * and the pending timer are fields of the form, and their completions are
 * separate steps that the environment takes.
 */
module PcosForm {
  import opened Js
  import opened Wrappers
  import opened NumberText
  import opened Bmi
  import opened IntakeSchema
  import opened PcosResult

  /** How the prediction request ended: the service's score, or any transport or server error. */
  datatype Response = Success(score: Score) | Failure

  /** What pressing the submit button did. */
  datatype SubmitOutcome =
    | Disabled                              // the button is disabled while submitting
    | Rejected(errors: set<FieldName>)      // validation failed; the handler does not run
    | Posted(body: map<string, real>)       // the record was posted

  /** The record after the BMI effect: BMI is overwritten when weight and height are both truthy. */
  function WithDerivedBmi(r: IntakeRecord): (r': IntakeRecord)
    ensures BmiConsistent(r')
    ensures forall f :: f != BMI ==> Get(r', f) == Get(r, f)
    ensures DeriveBmi(r.weight, r.height).None? ==> r' == r
  {
    var derived := DeriveBmi(r.weight, r.height);
    if derived.Some? then With(r, BMI, Num(derived.value)) else r
  }

  class IntakeForm {
    // React state of the form
    var values: IntakeRecord
    var isSubmitting: bool
    var showResults: bool
    var predictionScore: Score

    // Work the runtime holds for the form: the awaited POST, the pending
    // reset timer, and how many requests were sent and answered.
    var requestInFlight: bool
    var resetPending: bool
    var requestsSent: nat
    var responsesHandled: nat

    /**
     * The form's invariant: BMI agrees with weight and height; the flag is
     * set exactly while a request or its reset timer is outstanding; and at
     * most one request is ever unanswered.
     */
    ghost predicate Valid()
      reads this
    {
      && BmiConsistent(values)
      && (isSubmitting <==> requestInFlight || resetPending)
      && !(requestInFlight && resetPending)
      && requestsSent == responsesHandled + (if requestInFlight then 1 else 0)
    }

    /** The submit button is enabled exactly when no submission is under way: no request unanswered and no reset pending. */
    predicate SubmitEnabled()
      reads this
      ensures Valid() ==> (SubmitEnabled() <==> !requestInFlight && !resetPending)
      ensures Valid() && SubmitEnabled() ==> requestsSent == responsesHandled
    {
      !isSubmitting
    }

    constructor ()
      ensures Valid()
      ensures values == DefaultValues
      ensures !isSubmitting && !showResults
      ensures predictionScore == Number(Decimal(false, 0, []))
      ensures !requestInFlight && !resetPending && requestsSent == 0 && responsesHandled == 0
    {
      values := DefaultValues;
      isSubmitting := false;
      showResults := false;
      predictionScore := Number(Decimal(false, 0, []));
      requestInFlight := false;
      resetPending := false;
      requestsSent := 0;
      responsesHandled := 0;
    }

    /** The BMI effect: runs after weight or height changes and overwrites BMI, and nothing else, when both are truthy. */
    method RecomputeBmi()
      modifies this`values
      ensures values == WithDerivedBmi(old(values))
    {
      var derived := DeriveBmi(values.weight, values.height);
      if derived.Some? {
        values := With(values, BMI, Num(derived.value));
      }
    }

    /** An edit of a number input: the field stores the input's number, or 0 when it is cleared; a weight or height edit then runs the BMI effect. */
    method EnterNumber(f: FieldName, e: NumberInput)
      requires Valid() && HasNumberInput(f)
      modifies this`values
      ensures Valid()
      ensures f != Weight && f != Height ==> values == With(old(values), f, StoredNumber(e))
      ensures f == Weight || f == Height ==> values == WithDerivedBmi(With(old(values), f, StoredNumber(e)))
    {
      values := With(values, f, StoredNumber(e));
      if f == Weight || f == Height {
        RecomputeBmi();
      }
    }

    /** A Yes or No button of one of the nine answers: stores 1 or 0. */
    method Answer(f: FieldName, yes: bool)
      requires Valid() && IsFlag(f)
      modifies this`values
      ensures Valid()
      ensures values == With(old(values), f, Num(if yes then 1.0 else 0.0))
    {
      values := With(values, f, Num(if yes then 1.0 else 0.0));
    }

    /** A choice in the blood-group selector: stores `parseInt` of the option's code text. */
    method ChooseBloodGroup(option: nat)
      requires Valid() && option < |BloodGroupOptions|
      modifies this`values
      ensures Valid()
      ensures values == With(old(values), BloodGroup, SelectedCode(option))
    {
      values := With(values, BloodGroup, SelectedCode(option));
    }

    /**
     * A press of the submit button. Nothing happens while it is disabled;
     * an invalid record is rejected with its failing fields; otherwise the
     * flag is raised and the record is posted.
     */
    method PressSubmit() returns (outcome: SubmitOutcome)
      requires Valid()
      modifies this
      ensures Valid()
      ensures old(isSubmitting) ==> outcome == Disabled && unchanged(this)
      ensures !old(isSubmitting) && !Accepted(old(values)) ==>
        outcome == Rejected(FieldErrors(old(values))) && unchanged(this)
      ensures !old(isSubmitting) && Accepted(old(values)) ==>
        && outcome == Posted(RequestBody(old(values)))
        && isSubmitting && requestInFlight && !resetPending
        && requestsSent == old(requestsSent) + 1 && responsesHandled == old(responsesHandled)
        && values == old(values) && showResults == old(showResults)
        && predictionScore == old(predictionScore)
    {
      if isSubmitting {
        return Disabled;
      }
      var validated := Validate(values);
      if validated.Err? {
        return Rejected(validated.error);
      }
      AcceptedIffNoFieldErrors(values);
      isSubmitting := true;
      requestInFlight := true;
      requestsSent := requestsSent + 1;
      outcome := Posted(RequestBody(validated.value));
    }

    /**
     * The POST settles. On success the score is stored and the results are
     * shown; on failure neither changes. Either way the reset timer is
     * started, and the flag stays raised until it fires.
     */
    method ReceiveResponse(response: Response)
      requires Valid() && requestInFlight
      modifies this
      ensures Valid()
      ensures !requestInFlight && resetPending && isSubmitting
      ensures requestsSent == old(requestsSent) && responsesHandled == old(responsesHandled) + 1
      ensures values == old(values)
      ensures response.Success? ==> predictionScore == response.score && showResults
      ensures response.Failure? ==> predictionScore == old(predictionScore) && showResults == old(showResults)
    {
      if response.Success? {
        predictionScore := response.score;
        showResults := true;
      }
      requestInFlight := false;
      responsesHandled := responsesHandled + 1;
      resetPending := true;
    }

    /** The reset timer fires: the flag is lowered and the button enabled again. */
    method FireResetTimer()
      requires Valid() && resetPending
      modifies this
      ensures Valid()
      ensures !isSubmitting && !resetPending && !requestInFlight
      ensures values == old(values) && showResults == old(showResults)
      ensures predictionScore == old(predictionScore)
      ensures requestsSent == old(requestsSent) && responsesHandled == old(responsesHandled)
    {
      isSubmitting := false;
      resetPending := false;
    }

    /** The results dialog is closed. */
    method CloseResults()
      requires Valid()
      modifies this`showResults
      ensures Valid() && !showResults
    {
      showResults := false;
    }

    /** The results dialog: shown exactly when `showResults` is set, for the stored score. */
    function DisplayedResults(): (view: Option<ResultsView>)
      reads this
      ensures view.Some? <==> showResults
      ensures view.Some? ==> view.value.progressValue == NumericScore(predictionScore)
      ensures view.Some? ==> forall b :: InBand(NumericScore(predictionScore), b) ==>
                view.value.heading == LevelName(b) + " Risk" && view.value.explanation == ExplanationOf(b)
    {
      if showResults then Some(View(predictionScore)) else None
    }
  }

  /** Two presses of submit in a row send one request: the second finds the button disabled. */
  method DoubleSubmit(form: IntakeForm) returns (first: SubmitOutcome, second: SubmitOutcome)
    requires form.Valid() && form.SubmitEnabled() && Accepted(form.values)
    modifies form
    ensures form.Valid()
    ensures first.Posted? && second == Disabled
    ensures form.requestsSent == old(form.requestsSent) + 1
  {
    first := form.PressSubmit();
    second := form.PressSubmit();
  }

  /** After a failed request and the reset, the same record can be posted again, and no results were shown for the failure. */
  method RetryAfterFailure(form: IntakeForm) returns (retry: SubmitOutcome)
    requires form.Valid() && form.requestInFlight && Accepted(form.values)
    modifies form
    ensures form.Valid()
    ensures form.showResults == old(form.showResults)
    ensures retry == Posted(RequestBody(old(form.values)))
    ensures form.requestsSent == old(form.requestsSent) + 1
  {
    form.ReceiveResponse(Failure);
    form.FireResetTimer();
    retry := form.PressSubmit();
  }
}
