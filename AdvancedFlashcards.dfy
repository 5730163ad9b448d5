/**
  The flashcard study session (components/vocabulary/advanced-flashcard-system.tsx): the
  level and mode filters, the shuffle, the spaced-repetition update of a right or wrong
  answer, the session tallies and the card navigation. Days are whole numbers from an
  input `today`; the random shuffle is a sort with a comparator given as input.
*/
module AdvancedFlashcards {
  import opened Common

  datatype Status = Learning | Reviewing | Mastered
  datatype Level = Beginner | Intermediate | Advanced
  datatype ReviewMode = All | Due | Difficult | NewWords

  /** A card; `nextReviewAt` is the day the word falls due. */
  datatype Word = Word(id: string, word: string, meaning: string, status: Status,
                       nextReviewAt: int, level: Level, reviewCount: nat)

  /** The tallies of one session. */
  datatype Stats = Stats(correct: nat, incorrect: nat, total: nat)

  predicate Balanced(s: Stats) { s.correct + s.incorrect == s.total }

  /** The `user_words` update an answer sends. */
  datatype WordWrite = WordWrite(id: string, status: Status, nextReviewAt: int, reviewCount: nat)

  /** The `vocabulary_sessions` row written when a session ends. */
  datatype SessionRow = SessionRow(wordsReviewed: nat, correctAnswers: nat, incorrectAnswers: nat, mode: ReviewMode)

  /** The longest interval between reviews, in days. */
  const MaxIntervalDays: nat := 60

  /** The first filter: a beginner sees beginner words, an intermediate reader everything
      but advanced words, anyone else every word. */
  function LevelFilter(words: seq<Word>, userLevel: string): (r: seq<Word>)
    ensures forall w :: w in r <==>
              (&& w in words
               && (userLevel == "beginner" ==> w.level == Beginner)
               && (userLevel == "intermediate" ==> w.level != Advanced))
  {
    if userLevel == "beginner" then
      FilterMembers(words, (w: Word) => w.level == Beginner);
      Filter(words, (w: Word) => w.level == Beginner)
    else if userLevel == "intermediate" then
      FilterMembers(words, (w: Word) => w.level != Advanced);
      Filter(words, (w: Word) => w.level != Advanced)
    else words
  }

  /** The second filter: words due by `today`, advanced words, never-reviewed words, or
      all of them. */
  function ModeFilter(words: seq<Word>, mode: ReviewMode, today: int): (r: seq<Word>)
    ensures forall w :: w in r <==>
              (&& w in words
               && (mode == Due ==> w.nextReviewAt <= today)
               && (mode == Difficult ==> w.level == Advanced)
               && (mode == NewWords ==> w.reviewCount == 0))
  {
    match mode
    case Due =>
      FilterMembers(words, (w: Word) => w.nextReviewAt <= today);
      Filter(words, (w: Word) => w.nextReviewAt <= today)
    case Difficult =>
      FilterMembers(words, (w: Word) => w.level == Advanced);
      Filter(words, (w: Word) => w.level == Advanced)
    case NewWords =>
      FilterMembers(words, (w: Word) => w.reviewCount == 0);
      Filter(words, (w: Word) => w.reviewCount == 0)
    case All => words
  }

  /** `Math.min(2 ** reviewCount, 60)` with the count after this review. */
  function IntervalDays(reviewCountBefore: nat): (r: nat)
    ensures 2 <= r <= MaxIntervalDays
  {
    Min(Pow2(reviewCountBefore + 1), MaxIntervalDays)
  }

  /** The interval doubles with each review until it reaches sixty days, and stays there. */
  lemma IntervalGrowth(c: nat)
    ensures IntervalDays(c) <= IntervalDays(c + 1)
    ensures IntervalDays(c + 1) == Min(2 * IntervalDays(c), MaxIntervalDays)
    ensures c >= 5 ==> IntervalDays(c) == MaxIntervalDays
    ensures IntervalDays(0) == 2 && IntervalDays(4) == 32
  {
    assert Pow2(c + 2) == 2 * Pow2(c + 1);
    if c >= 5 {
      Pow2Monotone(6, c + 1);
      assert Pow2(6) == 64;
    }
    assert Pow2(5) == 32;
  }

  /** A right answer promotes learning to reviewing and anything else to mastered. */
  function Promoted(status: Status): (r: Status)
    ensures r != Learning
    ensures r == Reviewing <==> status == Learning
  {
    if status == Learning then Reviewing else Mastered
  }

  /** `Math.round(currentIndex / length * 100)`. */
  function ProgressPercent(index: nat, length: nat): (r: nat)
    requires length > 0
    ensures 2 * length * r <= 200 * index + length < 2 * length * (r + 1)
    ensures index <= length ==> r <= 100
  {
    var r := (200 * index + length) / (2 * length);
    RoundingBound(200 * index + length, 2 * length, r);
    r
  }

  lemma RoundingBound(a: nat, d: nat, q: nat)
    requires d > 0 && q == a / d
    ensures d * q <= a < d * (q + 1)
    ensures a < d * 101 ==> q <= 100
  {
    assert q > 100 ==> d * q >= d * 101;
  }

  class Session {
    const words: seq<Word>
    const userLevel: string
    var reviewMode: ReviewMode
    var shuffledWords: seq<Word>
    var currentIndex: nat
    var isFlipped: bool
    var studySession: bool
    var stats: Stats

    predicate Valid()
      reads this
    {
      Balanced(stats)
    }

    constructor(initialWords: seq<Word>, level: string)
      ensures Valid()
      ensures words == initialWords && userLevel == level && reviewMode == Due
      ensures shuffledWords == [] && currentIndex == 0
      ensures !isFlipped && !studySession && stats == Stats(0, 0, 0)
    {
      words := initialWords;
      userLevel := level;
      reviewMode := Due;
      shuffledWords := [];
      currentIndex := 0;
      isFlipped := false;
      studySession := false;
      stats := Stats(0, 0, 0);
      new;
      assert stats.correct == 0 && stats.incorrect == 0 && stats.total == 0;
    }

    /** The filter effect: with words to study, the session list becomes the filtered words
        in an order chosen by the random comparator `coin`, and the index goes back to 0. */
    method ApplyFilters(coin: (Word, Word) -> bool, today: int)
      modifies this`shuffledWords, this`currentIndex
      ensures |words| == 0 ==> shuffledWords == old(shuffledWords) && currentIndex == old(currentIndex)
      ensures |words| > 0 ==>
                && shuffledWords == SortBy(ModeFilter(LevelFilter(words, userLevel), reviewMode, today), coin)
                && currentIndex == 0
      ensures |words| > 0 ==>
                multiset(shuffledWords) == multiset(ModeFilter(LevelFilter(words, userLevel), reviewMode, today))
    {
      if |words| > 0 {
        var filtered := LevelFilter(words, userLevel);
        filtered := ModeFilter(filtered, reviewMode, today);
        shuffledWords := SortBy(filtered, coin);
        currentIndex := 0;
      }
    }

    /** `startStudySession`. */
    method StartStudySession()
      modifies this`studySession, this`currentIndex, this`isFlipped, this`stats
      ensures Valid()
      ensures studySession && currentIndex == 0 && !isFlipped && stats == Stats(0, 0, 0)
    {
      studySession := true;
      currentIndex := 0;
      isFlipped := false;
      stats := Stats(0, 0, 0);
      assert stats.correct == 0 && stats.incorrect == 0 && stats.total == 0;
    }

    /** `endStudySession` recording `recorded`: without a user nothing happens; otherwise
        the row is written and the session ends whether or not the insert succeeded. */
    method EndStudySession(hasUser: bool, recorded: Stats) returns (row: Option<SessionRow>)
      modifies this`studySession
      ensures !hasUser ==> row.None? && studySession == old(studySession)
      ensures hasUser ==>
                row == Some(SessionRow(recorded.total, recorded.correct, recorded.incorrect, reviewMode))
                && !studySession
    {
      if !hasUser {
        return None;
      }
      row := Some(SessionRow(recorded.total, recorded.correct, recorded.incorrect, reviewMode));
      studySession := false;
    }

    /** `goToNextCard`: the next card face down, or the end of the session after the last. */
    method GoToNextCard(hasUser: bool, recorded: Stats) returns (row: Option<SessionRow>)
      modifies this`currentIndex, this`isFlipped, this`studySession
      ensures old(currentIndex) + 1 < |shuffledWords| ==>
                currentIndex == old(currentIndex) + 1 && !isFlipped && row.None? && studySession == old(studySession)
      ensures old(currentIndex) + 1 >= |shuffledWords| ==>
                currentIndex == old(currentIndex) && isFlipped == old(isFlipped)
                && (!hasUser ==> row.None? && studySession == old(studySession))
                && (hasUser ==> row == Some(SessionRow(recorded.total, recorded.correct, recorded.incorrect, reviewMode))
                                && !studySession)
    {
      if currentIndex + 1 < |shuffledWords| {
        currentIndex := currentIndex + 1;
        isFlipped := false;
        row := None;
      } else {
        row := EndStudySession(hasUser, recorded);
      }
    }

    /** `goToPrevCard`. */
    method GoToPrevCard()
      modifies this`currentIndex, this`isFlipped
      ensures old(currentIndex) > 0 ==> currentIndex == old(currentIndex) - 1 && !isFlipped
      ensures old(currentIndex) == 0 ==> currentIndex == 0 && isFlipped == old(isFlipped)
    {
      if currentIndex > 0 {
        currentIndex := currentIndex - 1;
        isFlipped := false;
      }
    }

    /** The update an answer sends for the card at `currentIndex`: a right answer counts one
        more review, promotes the word and doubles its interval (at most sixty days); a
        wrong one counts one more review, sends it back to learning and due tomorrow. */
    function AnswerWrite(correct: bool, today: int): (w: Option<WordWrite>)
      reads this
      ensures w.Some? <==> currentIndex < |shuffledWords|
      ensures w.Some? ==> (w.value.id == shuffledWords[currentIndex].id
                       && w.value.reviewCount == shuffledWords[currentIndex].reviewCount + 1)
      ensures w.Some? && correct ==>
                && w.value.status == Promoted(shuffledWords[currentIndex].status)
                && today + 2 <= w.value.nextReviewAt <= today + MaxIntervalDays
      ensures w.Some? && !correct ==> w.value.status == Learning && w.value.nextReviewAt == today + 1
    {
      if currentIndex >= |shuffledWords| then None
      else
        var word := shuffledWords[currentIndex];
        if correct then Some(WordWrite(word.id, Promoted(word.status), today + IntervalDays(word.reviewCount), word.reviewCount + 1))
        else Some(WordWrite(word.id, Learning, today + 1, word.reviewCount + 1))
    }

    /** `handleCorrectAnswer` / `handleIncorrectAnswer` as written: after a successful
        update the tallies grow and the next card is shown, but a session that ends here
        records the tallies from before this answer. With no card at the index the handler
        fails before writing anything. */
    method AnswerAsWritten(correct: bool, updated: bool, hasUser: bool, today: int)
      returns (write: Option<WordWrite>, row: Option<SessionRow>)
      requires Valid()
      modifies this`stats, this`currentIndex, this`isFlipped, this`studySession
      ensures Valid()
      ensures write == old(AnswerWrite(correct, today))
      ensures write.None? || !updated ==>
                row.None? && stats == old(stats) && currentIndex == old(currentIndex)
                && isFlipped == old(isFlipped) && studySession == old(studySession)
      ensures write.Some? && updated ==>
                stats == (if correct then old(stats).(correct := old(stats).correct + 1, total := old(stats).total + 1)
                          else old(stats).(incorrect := old(stats).incorrect + 1, total := old(stats).total + 1))
      ensures write.Some? && updated && old(currentIndex) + 1 < |shuffledWords| ==>
                currentIndex == old(currentIndex) + 1 && !isFlipped && row.None?
      ensures write.Some? && updated && old(currentIndex) + 1 >= |shuffledWords| ==>
                currentIndex == old(currentIndex)
                && (hasUser ==> !studySession && row == Some(SessionRow(old(stats).total, old(stats).correct, old(stats).incorrect, reviewMode)))
                && (!hasUser ==> row.None?)
    {
      write := AnswerWrite(correct, today);
      row := None;
      if write.None? || !updated {
        return;
      }
      var before := stats;
      stats := if correct then stats.(correct := stats.correct + 1, total := stats.total + 1)
               else stats.(incorrect := stats.incorrect + 1, total := stats.total + 1);
      row := GoToNextCard(hasUser, before);
    }

    /** The answer handlers with the session row taken from the tallies that include this
        answer, so a finished session records every card answered. */
    method Answer(correct: bool, updated: bool, hasUser: bool, today: int)
      returns (write: Option<WordWrite>, row: Option<SessionRow>)
      requires Valid()
      modifies this`stats, this`currentIndex, this`isFlipped, this`studySession
      ensures Valid()
      ensures write == old(AnswerWrite(correct, today))
      ensures write.None? || !updated ==>
                row.None? && stats == old(stats) && currentIndex == old(currentIndex)
                && isFlipped == old(isFlipped) && studySession == old(studySession)
      ensures write.Some? && updated ==>
                stats == (if correct then old(stats).(correct := old(stats).correct + 1, total := old(stats).total + 1)
                          else old(stats).(incorrect := old(stats).incorrect + 1, total := old(stats).total + 1))
      ensures write.Some? && updated && old(currentIndex) + 1 < |shuffledWords| ==>
                currentIndex == old(currentIndex) + 1 && !isFlipped && row.None?
      ensures write.Some? && updated && old(currentIndex) + 1 >= |shuffledWords| ==>
                currentIndex == old(currentIndex)
                && (hasUser ==> !studySession && row == Some(SessionRow(stats.total, stats.correct, stats.incorrect, reviewMode)))
                && (!hasUser ==> row.None?)
    {
      write := AnswerWrite(correct, today);
      row := None;
      if write.None? || !updated {
        return;
      }
      stats := if correct then stats.(correct := stats.correct + 1, total := stats.total + 1)
               else stats.(incorrect := stats.incorrect + 1, total := stats.total + 1);
      row := GoToNextCard(hasUser, stats);
    }
  }

  /** The discrepancy: a one-card session answered right records no word reviewed and no
      right answer, though the screen counted both. */
  method OneCardSession(w: Word) returns (recorded: Option<SessionRow>, counted: Stats)
    ensures recorded == Some(SessionRow(0, 0, 0, Due)) && counted == Stats(1, 0, 1)
  {
    var s := new Session([w], "advanced");
    s.shuffledWords := [w];
    s.StartStudySession();
    assert s.AnswerWrite(true, 0).Some?;
    var _, row := s.AnswerAsWritten(true, true, true, 0);
    assert s.stats.correct == 1 && s.stats.incorrect == 0 && s.stats.total == 1;
    recorded := row;
    counted := s.stats;
  }
}
