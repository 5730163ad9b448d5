/**
  The vocabulary manager (components/vocabulary/vocabulary-manager.tsx): the status tabs
  and their counts, the status change of one word with its next review date, the status
  buttons each card offers, and when the flashcard panel appears. Dates are whole days
  from an input `today`.
*/
module VocabularyManager {
  import opened Common

  datatype Status = Learning | Reviewing | Mastered

  datatype Word = Word(id: string, word: string, meaning: string, status: Status, nextReviewAt: int)

  /** The tab value of a status. */
  function StatusName(s: Status): (r: string)
    ensures r != "all"
  {
    match s
    case Learning => "learning"
    case Reviewing => "reviewing"
    case Mastered => "mastered"
  }

  lemma StatusNameInjective(a: Status, b: Status)
    ensures StatusName(a) == StatusName(b) <==> a == b
  {
  }

  /** Days until the next review after a status change. */
  function IntervalDays(s: Status): (r: nat)
    ensures r == 7 <==> s == Mastered
    ensures r == 3 <==> s == Reviewing
    ensures r == 1 <==> s == Learning
  {
    match s
    case Mastered => 7
    case Reviewing => 3
    case Learning => 1
  }

  /** The more settled the status, the longer until the next review. */
  lemma IntervalOrder()
    ensures IntervalDays(Learning) < IntervalDays(Reviewing) < IntervalDays(Mastered)
  {
  }

  /** The list after `updateWordStatus`: the word with that id gets the status and its next
      review date; every other word is left as it was. */
  function WithStatus(words: seq<Word>, wordId: string, newStatus: Status, today: int): (r: seq<Word>)
    ensures |r| == |words|
    ensures forall k :: 0 <= k < |words| && words[k].id != wordId ==> r[k] == words[k]
    ensures forall k :: 0 <= k < |words| && words[k].id == wordId ==>
              r[k] == words[k].(status := newStatus, nextReviewAt := today + IntervalDays(newStatus))
  {
    seq(|words|, k requires 0 <= k < |words| =>
      if words[k].id == wordId then words[k].(status := newStatus, nextReviewAt := today + IntervalDays(newStatus))
      else words[k])
  }

  /** The words a tab lists. */
  function TabWords(words: seq<Word>, activeTab: string): (r: seq<Word>)
    ensures activeTab == "all" ==> r == words
    ensures forall w :: w in r <==> w in words && (activeTab == "all" || StatusName(w.status) == activeTab)
  {
    if activeTab == "all" then words
    else
      FilterMembers(words, (w: Word) => StatusName(w.status) == activeTab);
      Filter(words, (w: Word) => StatusName(w.status) == activeTab)
  }

  function HasStatus(s: Status): Word -> bool
  {
    (w: Word) => w.status == s
  }

  /** The count shown on a status tab. */
  function TabCount(words: seq<Word>, s: Status): nat
  {
    Count(words, HasStatus(s))
  }

  /** The count on a tab is the length of the list that tab shows. */
  lemma TabCountIsTabLength(words: seq<Word>, s: Status)
    ensures TabCount(words, s) == |TabWords(words, StatusName(s))|
  {
    FilterSame(words, HasStatus(s), (w: Word) => StatusName(w.status) == StatusName(s));
  }

  /** The three status tabs together count every word, as the "all" tab does. */
  lemma {:induction false} TabCountsSum(words: seq<Word>)
    ensures TabCount(words, Learning) + TabCount(words, Reviewing) + TabCount(words, Mastered) == |words|
  {
    if words != [] {
      TabCountsSum(words[1..]);
    }
  }

  /** The status buttons a card shows: every status other than its own, in the order
      learning, reviewing, mastered. */
  function Transitions(current: Status): (r: seq<Status>)
    ensures current !in r
    ensures forall s :: s != current ==> s in r
    ensures |r| == 2
  {
    Filter([Learning, Reviewing, Mastered], (s: Status) => s != current)
  }

  predicate InFlashcards(w: Word) { w.status == Learning || w.status == Reviewing }

  /** The words handed to the flashcard panel. */
  function FlashcardWords(words: seq<Word>): (r: seq<Word>)
    ensures forall w :: w in r <==> w in words && InFlashcards(w)
  {
    FilterMembers(words, InFlashcards);
    Filter(words, InFlashcards)
  }

  /** The flashcard panel appears when at least five words are learning or reviewing. */
  predicate FlashcardsShown(words: seq<Word>)
  {
    |FlashcardWords(words)| >= 5
  }

  lemma FlashcardsShownCount(words: seq<Word>)
    ensures FlashcardsShown(words) <==> TabCount(words, Learning) + TabCount(words, Reviewing) >= 5
  {
    FlashcardCount(words);
  }

  lemma {:induction false} FlashcardCount(words: seq<Word>)
    ensures |FlashcardWords(words)| == TabCount(words, Learning) + TabCount(words, Reviewing)
  {
    if words != [] {
      FlashcardCount(words[1..]);
    }
  }

  /** What the `user_words` read returns. */
  datatype FetchReply = FetchFailed | Fetched(rows: seq<Word>)

  class Manager {
    var words: seq<Word>
    var isLoading: bool
    var activeTab: string

    constructor()
      ensures words == [] && isLoading && activeTab == "all"
    {
      words := [];
      isLoading := true;
      activeTab := "all";
    }

    /** The list shown under the active tab. */
    function Shown(): (r: seq<Word>)
      reads this
      ensures forall w :: w in r <==> w in words && (activeTab == "all" || StatusName(w.status) == activeTab)
    {
      TabWords(words, activeTab)
    }

    /** `fetchWords`: the rows replace the list; a failed read leaves it alone. */
    method FetchWords(reply: FetchReply)
      modifies this`words, this`isLoading
      ensures !isLoading
      ensures words == if reply.Fetched? then reply.rows else old(words)
    {
      isLoading := true;
      if reply.Fetched? {
        words := reply.rows;
      }
      isLoading := false;
    }

    /** `updateWordStatus`, with the outcome of the database update as `updated`. */
    method UpdateWordStatus(wordId: string, newStatus: Status, updated: bool, today: int)
      modifies this`words
      ensures words == if updated then WithStatus(old(words), wordId, newStatus, today) else old(words)
    {
      if updated {
        words := WithStatus(words, wordId, newStatus, today);
      }
    }

    /** `setActiveTab` from the tab strip. */
    method SetActiveTab(tab: string)
      modifies this`activeTab
      ensures activeTab == tab
    {
      activeTab := tab;
    }
  }

  /** A status change moves the word from its old tab to the new one and keeps the number
      of words. */
  lemma StatusChangeMovesTab(words: seq<Word>, k: nat, newStatus: Status, today: int)
    requires k < |words|
    requires forall j :: 0 <= j < |words| && j != k ==> words[j].id != words[k].id
    ensures var r := WithStatus(words, words[k].id, newStatus, today);
      && |r| == |words|
      && r[k] in TabWords(r, StatusName(newStatus))
      && (forall j :: 0 <= j < |words| && j != k ==> r[j] == words[j])
  {
    var r := WithStatus(words, words[k].id, newStatus, today);
    assert r[k] in r;
  }
}
