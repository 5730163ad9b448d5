/**
  The word review screen (components/review/review-client.tsx): the spaced-repetition
  step of `handleResponse`, the known/learning tallies, the list of reviewed words and
  the previous/next buttons. Dates are counted in whole days from an input `today`.
*/
module ReviewClient {
  import opened Common

  /** A word due for review; `status` is the stored string ("new", "learning", "known"). */
  datatype WordToReview = WordToReview(id: string, word: string, meaning: string, status: string)

  /** The `user_words` update a response sends: new status and day of the next review. */
  datatype StatusWrite = StatusWrite(id: string, status: string, nextReviewDay: int)

  /** Reviews of a learning word needed before "I knew it" promotes it to known. */
  const PromoteAfter: nat := 3

  class Review {
    const words: seq<WordToReview>
    var currentIndex: int
    var showMeaning: bool
    var reviewedWords: seq<string>
    var isCompleted: bool
    var isLoading: bool
    var known: nat
    var learning: nat

    /** The index always names a word when there is one, and is 0 otherwise. */
    predicate Valid()
      reads this
    {
      0 <= currentIndex && (|words| == 0 ==> currentIndex == 0) && (|words| > 0 ==> currentIndex < |words|)
    }

    constructor(wordsToReview: seq<WordToReview>)
      ensures Valid()
      ensures words == wordsToReview && currentIndex == 0 && !showMeaning && reviewedWords == []
      ensures isCompleted <==> |wordsToReview| == 0
      ensures !isLoading && known == 0 && learning == 0
    {
      words := wordsToReview;
      currentIndex := 0;
      showMeaning := false;
      reviewedWords := [];
      isCompleted := |wordsToReview| == 0;
      isLoading := false;
      known := 0;
      learning := 0;
    }

    /** The progress bar: the share of words reviewed, in percent (left at 0 with no words). */
    function ProgressPercent(): (r: real)
      reads this
      ensures |words| == 0 ==> r == 0.0
      ensures |words| > 0 ==> r * (|words| as real) == (|reviewedWords| as real) * 100.0
    {
      if |words| == 0 then 0.0 else (|reviewedWords| as real) / (|words| as real) * 100.0
    }

    /** `handleResponse(knew)`. `reviewCount` is what `getReviewCount` reports (consulted
        only for a learning word the user knew), `updated` whether the `user_words` update
        succeeded and `hasUser` whether a user is signed in when the status changed.
        The result is the update that was sent, if any. */
    method HandleResponse(knew: bool, reviewCount: nat, updated: bool, hasUser: bool, today: int)
      returns (write: Option<StatusWrite>)
      requires Valid()
      modifies this`currentIndex, this`showMeaning, this`reviewedWords, this`isCompleted,
               this`isLoading, this`known, this`learning
      ensures Valid()
      ensures !isLoading
      // Nothing happens once the index is past the list.
      ensures old(currentIndex) >= |words| ==>
                write.None? && currentIndex == old(currentIndex) && reviewedWords == old(reviewedWords)
                && isCompleted == old(isCompleted) && known == old(known) && learning == old(learning)
                && showMeaning == old(showMeaning)
      ensures old(currentIndex) < |words| ==> write.Some? && write.value.id == words[old(currentIndex)].id
      // The schedule.
      ensures old(currentIndex) < |words| ==>
                var status := words[old(currentIndex)].status;
                var w := write.value;
                && (knew && status == "new" ==> w.status == "learning" && w.nextReviewDay == today + 1)
                && (knew && status == "learning" && reviewCount >= PromoteAfter ==>
                      w.status == "known" && w.nextReviewDay == today + 7)
                && (knew && status == "learning" && reviewCount < PromoteAfter ==>
                      w.status == "learning" && w.nextReviewDay == today + 3)
                && (knew && status == "known" ==> w.status == "known" && w.nextReviewDay == today + 14)
                && (knew && status != "new" && status != "learning" && status != "known" ==>
                      w.status == status && w.nextReviewDay == today + 1)
                && (!knew ==> w.status == (if status == "known" then "learning" else status)
                              && w.nextReviewDay == today + 1)
      // The tallies are counted before the update, whatever its outcome.
      ensures old(currentIndex) < |words| ==>
                var status := words[old(currentIndex)].status;
                && known == old(known) + (if knew && (status == "known" || (status == "learning" && reviewCount >= PromoteAfter)) then 1 else 0)
                && learning == old(learning) + (if !knew || status == "new" || (status == "learning" && reviewCount < PromoteAfter) then 1 else 0)
      // Moving on happens only after a successful update (and, when the status changed,
      // with a user signed in).
      ensures old(currentIndex) < |words| ==>
                var moves := updated && (write.value.status == words[old(currentIndex)].status || hasUser);
                && reviewedWords == old(reviewedWords) + (if moves then [words[old(currentIndex)].id] else [])
                && (moves && old(currentIndex) < |words| - 1 ==>
                      currentIndex == old(currentIndex) + 1 && !showMeaning && isCompleted == old(isCompleted))
                && (moves && old(currentIndex) == |words| - 1 ==>
                      currentIndex == old(currentIndex) && isCompleted && showMeaning == old(showMeaning))
                && (!moves ==> currentIndex == old(currentIndex) && isCompleted == old(isCompleted)
                               && showMeaning == old(showMeaning))
    {
      if currentIndex >= |words| {
        isLoading := false;
        return None;
      }
      isLoading := true;
      var currentWord := words[currentIndex];
      var newStatus := currentWord.status;
      var daysToAdd := 1;
      if knew {
        if currentWord.status == "new" {
          newStatus := "learning";
          daysToAdd := 1;
          learning := learning + 1;
        } else if currentWord.status == "learning" {
          if reviewCount >= PromoteAfter {
            newStatus := "known";
            daysToAdd := 7;
            known := known + 1;
          } else {
            daysToAdd := 3;
            learning := learning + 1;
          }
        } else if currentWord.status == "known" {
          daysToAdd := 14;
          known := known + 1;
        }
      } else {
        if currentWord.status == "known" {
          newStatus := "learning";
        }
        daysToAdd := 1;
        learning := learning + 1;
      }
      write := Some(StatusWrite(currentWord.id, newStatus, today + daysToAdd));
      if !updated {
        isLoading := false;
        return;
      }
      if newStatus != currentWord.status && !hasUser {
        isLoading := false;
        return;
      }
      reviewedWords := reviewedWords + [currentWord.id];
      if currentIndex < |words| - 1 {
        currentIndex := currentIndex + 1;
        showMeaning := false;
      } else {
        isCompleted := true;
      }
      isLoading := false;
    }

    /** The "previous word" button. */
    method Previous()
      requires Valid()
      modifies this`currentIndex, this`showMeaning
      ensures Valid()
      ensures old(currentIndex) > 0 ==> currentIndex == old(currentIndex) - 1 && !showMeaning
      ensures old(currentIndex) == 0 ==> currentIndex == 0 && showMeaning == old(showMeaning)
    {
      if currentIndex > 0 {
        currentIndex := currentIndex - 1;
        showMeaning := false;
      }
    }

    /** The "next word" button. */
    method Next()
      requires Valid()
      modifies this`currentIndex, this`showMeaning
      ensures Valid()
      ensures old(currentIndex) < |words| - 1 ==> currentIndex == old(currentIndex) + 1 && !showMeaning
      ensures old(currentIndex) >= |words| - 1 ==> currentIndex == old(currentIndex) && showMeaning == old(showMeaning)
    {
      if currentIndex < |words| - 1 {
        currentIndex := currentIndex + 1;
        showMeaning := false;
      }
    }
  }

  /** For the three statuses a stored word can have, and for any "did not know", each
      response grows exactly one of the two tallies by one. */
  method TalliesGrowByOne(r: Review, knew: bool, reviewCount: nat, updated: bool, hasUser: bool, today: int)
    requires r.Valid() && r.currentIndex < |r.words|
    requires !knew || r.words[r.currentIndex].status in {"new", "learning", "known"}
    modifies r
    ensures r.known + r.learning == old(r.known) + old(r.learning) + 1
  {
    var _ := r.HandleResponse(knew, reviewCount, updated, hasUser, today);
  }
}
