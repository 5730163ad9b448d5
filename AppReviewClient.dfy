/**
  The simpler review screen (app/components/review/review-client.tsx): the next status
  and review delay chosen for a response, and the index that moves on only after the
  update succeeded. Times are counted in hours from an input `now`.
*/
module AppReviewClient {
  import opened Common

  datatype WordStatus = New | Learning | Known

  datatype WordToReview = WordToReview(id: string, word: string, meaning: string, status: WordStatus)

  /** What a response decides: the status to store and the delay, in hours. */
  datatype Decision = Decision(newStatus: WordStatus, delayHours: nat)

  const HoursPerDay: nat := 24

  /** The branch of `handleResponse` that picks the status and the next review time. */
  function Decide(known: bool, status: WordStatus): (d: Decision)
    ensures known && status == New ==> d == Decision(Learning, 1 * HoursPerDay)
    ensures known && status == Learning ==> d == Decision(Known, 3 * HoursPerDay)
    ensures known && status == Known ==> d == Decision(Known, 7 * HoursPerDay)
    ensures !known ==> d.delayHours == 4 && d.newStatus == (if status == Known then Learning else status)
  {
    if known then
      if status == New then Decision(Learning, 24)
      else if status == Learning then Decision(Known, 3 * 24)
      else Decision(status, 7 * 24)
    else Decision(if status == Known then Learning else status, 4)
  }

  function Rank(s: WordStatus): nat
  {
    match s
    case New => 0
    case Learning => 1
    case Known => 2
  }

  /** A word the user knew moves up one step (or stays known) and is due later than one
      they did not know; a word they did not know never moves up. */
  lemma DecideMonotone(status: WordStatus)
    ensures Rank(Decide(true, status).newStatus) == Min(Rank(status) + 1, 2)
    ensures Rank(Decide(false, status).newStatus) <= Rank(status)
    ensures Decide(false, status).delayHours < Decide(true, status).delayHours
  {
  }

  class Review {
    const words: seq<WordToReview>
    var currentIndex: nat
    var showMeaning: bool
    var isSubmitting: bool

    constructor(wordsToReview: seq<WordToReview>)
      ensures words == wordsToReview && currentIndex == 0 && !showMeaning && !isSubmitting
    {
      words := wordsToReview;
      currentIndex := 0;
      showMeaning := false;
      isSubmitting := false;
    }

    /** An index past the list renders the "All done!" view instead of a card. */
    predicate AllDone()
      reads this
    {
      currentIndex >= |words|
    }

    /** `handleResponse(known)` on the card being shown; `updated` is the outcome of the
        `user_words` update. A response while a submission is in flight does nothing. */
    method HandleResponse(known: bool, updated: bool, now: int) returns (write: Option<(string, WordStatus, int)>)
      requires !AllDone()
      modifies this`currentIndex, this`showMeaning, this`isSubmitting
      ensures old(isSubmitting) ==>
                write.None? && currentIndex == old(currentIndex) && showMeaning == old(showMeaning) && isSubmitting
      ensures !old(isSubmitting) ==>
                var word := words[old(currentIndex)];
                var d := Decide(known, word.status);
                && write == Some((word.id, d.newStatus, now + d.delayHours))
                && !isSubmitting
                && (updated ==> currentIndex == old(currentIndex) + 1 && !showMeaning)
                && (!updated ==> currentIndex == old(currentIndex) && showMeaning == old(showMeaning))
    {
      if isSubmitting {
        return None;
      }
      isSubmitting := true;
      var currentWord := words[currentIndex];
      var decision := Decide(known, currentWord.status);
      write := Some((currentWord.id, decision.newStatus, now + decision.delayHours));
      if updated {
        currentIndex := currentIndex + 1;
        showMeaning := false;
      }
      isSubmitting := false;
    }
  }
}
