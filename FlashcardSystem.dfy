/**
  The plain flashcard deck (components/vocabulary/flashcard-system.tsx): flipping a card,
  moving forward and back, and the set of words already studied.
*/
module FlashcardSystem {
  import opened Common

  datatype Word = Word(id: string, word: string, meaning: string)

  /** The ids of the deck's words. */
  function Ids(words: seq<Word>): (r: set<string>)
    ensures forall id :: id in r <==> exists k :: 0 <= k < |words| && words[k].id == id
  {
    set k | 0 <= k < |words| :: words[k].id
  }

  class Deck {
    const words: seq<Word>
    var currentIndex: nat
    var isFlipped: bool
    var studiedWords: set<string>

    /** The index names a card, and only the deck's own words are ever marked studied. */
    predicate Valid()
      reads this
    {
      && (|words| > 0 ==> currentIndex < |words|)
      && studiedWords <= Ids(words)
    }

    constructor(deck: seq<Word>)
      ensures Valid()
      ensures words == deck && currentIndex == 0 && !isFlipped && studiedWords == {}
    {
      words := deck;
      currentIndex := 0;
      isFlipped := false;
      studiedWords := {};
    }

    /** `handleFlip`. */
    method HandleFlip()
      modifies this`isFlipped
      ensures isFlipped == !old(isFlipped)
    {
      isFlipped := !isFlipped;
    }

    /** `handleNext` (the buttons exist only when the deck has cards). On the last card it
        changes nothing and calls `onComplete` if the parent passed one; otherwise the current word is marked
        studied and the next card is shown face down. */
    method HandleNext(hasOnComplete: bool) returns (calledOnComplete: bool)
      requires Valid() && |words| > 0
      modifies this`currentIndex, this`isFlipped, this`studiedWords
      ensures Valid()
      ensures calledOnComplete <==> old(currentIndex) == |words| - 1 && hasOnComplete
      ensures old(currentIndex) == |words| - 1 ==>
                currentIndex == old(currentIndex) && isFlipped == old(isFlipped) && studiedWords == old(studiedWords)
      ensures old(currentIndex) < |words| - 1 ==>
                && currentIndex == old(currentIndex) + 1 && !isFlipped
                && studiedWords == old(studiedWords) + {words[old(currentIndex)].id}
      ensures old(studiedWords) <= studiedWords
    {
      if currentIndex == |words| - 1 {
        return hasOnComplete;
      }
      isFlipped := false;
      var id := words[currentIndex].id;
      currentIndex := currentIndex + 1;
      studiedWords := studiedWords + {id};
      calledOnComplete := false;
    }

    /** `handlePrevious`. */
    method HandlePrevious()
      requires Valid()
      modifies this`currentIndex, this`isFlipped
      ensures Valid()
      ensures old(currentIndex) > 0 ==> currentIndex == old(currentIndex) - 1 && !isFlipped
      ensures old(currentIndex) == 0 ==> currentIndex == 0 && isFlipped == old(isFlipped)
    {
      if currentIndex > 0 {
        isFlipped := false;
        currentIndex := currentIndex - 1;
      }
    }
  }

  /** Flipping a card twice shows the same face again. */
  method FlipTwice(d: Deck)
    modifies d
    ensures d.isFlipped == old(d.isFlipped)
  {
    d.HandleFlip();
    d.HandleFlip();
  }
}
