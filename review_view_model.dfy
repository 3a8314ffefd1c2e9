/** The review session: a cursor over the due reviews fetched from the service.

    The remote service is not part of this model: each call appears as the `Outcome`
    it produced, a value or the error it threw. Where a call's request is modelled, the
    access-token fetch that precedes it is an `Outcome` of its own, because a failed
    fetch means the call is never made; elsewhere a failed fetch is folded into the
    call's failure. */
module ReviewSession {
  import opened Wrappers
  import opened Models

  /** What `completeCurrentReview` sends to the service. */
  datatype CompleteRequest = CompleteRequest(accessToken: string, id: string, recallText: Option<string>)

  /** An empty recall text is sent as no text at all; any other text is sent verbatim. */
  function RecallTextToSend(recallText: string): (r: Option<string>)
    ensures r.None? <==> recallText == ""
    ensures r.Some? ==> r.value == recallText
  {
    if recallText == "" then None else Some(recallText)
  }

  class ReviewViewModel {
    var reviews: seq<ReviewSchedule>
    var currentIndex: int
    var isLoading: bool
    var error: Option<string>
    var showAnswer: bool
    var recallText: string

    /** The cursor never runs past the end of the loaded list. */
    ghost predicate Valid()
      reads this
    {
      0 <= currentIndex <= |reviews|
    }

    constructor ()
      ensures Valid()
      ensures reviews == [] && currentIndex == 0 && !isLoading && error.None?
      ensures !showAnswer && recallText == ""
    {
      reviews := [];
      currentIndex := 0;
      isLoading := false;
      error := None;
      showAnswer := false;
      recallText := "";
    }

    /** The review under the cursor; none once the cursor has reached the end. */
    function CurrentReview(): (r: Option<ReviewSchedule>)
      reads this
      requires Valid()
      ensures r.None? <==> currentIndex == |reviews|
      ensures r.Some? ==> r.value == reviews[currentIndex]
    {
      if currentIndex < |reviews| then Some(reviews[currentIndex]) else None
    }

    /** Whether another review follows the current one. */
    function HasMoreReviews(): (r: bool)
      reads this
      requires Valid()
      ensures r <==> CurrentReview().Some? && currentIndex + 1 < |reviews|
    {
      currentIndex < |reviews| - 1
    }

    /** The number of reviews behind the cursor. */
    function CompletedCount(): (r: int)
      reads this
      requires Valid()
      ensures r == currentIndex
      ensures 0 <= r <= TotalCount()
      ensures r == TotalCount() <==> CurrentReview().None?
    {
      currentIndex
    }

    function TotalCount(): (r: int)
      reads this
      ensures r == |reviews|
    {
      |reviews|
    }

    /** A successful load replaces the list and starts the session afresh; a failed one
        keeps the session as it was and records the error. */
    method LoadReviews(outcome: Outcome<seq<ReviewSchedule>>)
      requires Valid()
      modifies this
      ensures Valid() && !isLoading
      ensures outcome.Success? ==>
        && reviews == outcome.value && currentIndex == 0
        && !showAnswer && recallText == "" && error.None?
      ensures outcome.Failure? ==>
        && reviews == old(reviews) && currentIndex == old(currentIndex)
        && showAnswer == old(showAnswer) && recallText == old(recallText)
        && error == Some(outcome.message)
    {
      isLoading := true;
      error := None;
      match outcome {
        case Success(loaded) =>
          reviews := loaded;
          currentIndex := 0;
          showAnswer := false;
          recallText := "";
        case Failure(message) =>
          error := Some(message);
      }
      isLoading := false;
    }

    /** Sends the completion of the current review, if there is one and an access token
        is obtained; `token` is the outcome of that fetch and `outcome` that of the call.
        On success the cursor moves to the next review with the answer hidden and the
        recall text cleared, or past the last review; when the token or the call fails
        it stays and the error is recorded. */
    method CompleteCurrentReview(token: Outcome<string>, outcome: Outcome<()>)
      returns (request: Option<CompleteRequest>)
      requires Valid()
      modifies this
      ensures Valid()
      ensures reviews == old(reviews)
      ensures request.Some? <==> old(CurrentReview()).Some? && token.Success?
      ensures old(CurrentReview()).None? ==> unchanged(this)
      ensures old(CurrentReview()).Some? ==> !isLoading
      ensures old(CurrentReview()).Some? && token.Success? ==>
        request.value == CompleteRequest(token.value, old(reviews[currentIndex].id), RecallTextToSend(old(recallText)))
      ensures old(CurrentReview()).Some? && token.Success? && outcome.Success? ==>
        && error.None?
        && currentIndex == old(currentIndex) + 1
        && (if old(HasMoreReviews()) then !showAnswer && recallText == ""
            else showAnswer == old(showAnswer) && recallText == old(recallText))
      ensures old(CurrentReview()).Some? && (token.Failure? || outcome.Failure?) ==>
        && currentIndex == old(currentIndex) && showAnswer == old(showAnswer)
        && recallText == old(recallText)
        && error == Some(if token.Failure? then token.message else outcome.message)
    {
      var review := CurrentReview();
      if review.None? {
        return None;
      }
      isLoading := true;
      error := None;
      match token {
        case Failure(message) =>
          error := Some(message);
          request := None;
        case Success(accessToken) =>
          request := Some(CompleteRequest(accessToken, review.value.id, RecallTextToSend(recallText)));
          match outcome {
            case Success(_) =>
              if HasMoreReviews() {
                currentIndex := currentIndex + 1;
                showAnswer := false;
                recallText := "";
              } else {
                currentIndex := |reviews|;
              }
            case Failure(message) =>
              error := Some(message);
          }
      }
      isLoading := false;
    }

    /** Shows or hides the answer; toggling twice restores it. */
    method ToggleAnswer()
      requires Valid()
      modifies this`showAnswer
      ensures Valid()
      ensures showAnswer == !old(showAnswer)
    {
      showAnswer := !showAnswer;
    }

    /** Restarts the session over the same list. */
    method ResetReviews()
      modifies this`currentIndex, this`showAnswer, this`recallText
      ensures Valid()
      ensures currentIndex == 0 && !showAnswer && recallText == ""
    {
      currentIndex := 0;
      showAnswer := false;
      recallText := "";
    }
  }
}
