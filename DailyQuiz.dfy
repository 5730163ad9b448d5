/**
  The daily vocabulary quiz hook (hooks/use-daily-quiz.ts): building five questions from
  the words being learned, the check for a quiz already taken today, choosing an answer,
  the score, and the streak written when the quiz ends. Database replies are inputs, and
  each random shuffle is a sort with a comparator given as input.
*/
module DailyQuiz {
  import opened Common

  datatype QuizWord = QuizWord(id: string, word: string, meaning: string)

  datatype Question = Question(id: string, word: string, correctAnswer: string, options: seq<string>)

  const QuestionCount: nat := 5
  const WrongOptions: nat := 3
  /** A score of at least this many keeps the streak going. */
  const PassScore: nat := 3
  /** The error code for "no row" that the `user_stats` read tolerates. */
  const NoRowCode: string := "PGRST116"

  const NotEnoughWordsMessage: string := "کلمات کافی برای ایجاد آزمون وجود ندارد"
  const GenerateErrorMessage: string := "خطا در ایجاد آزمون"
  const LoadErrorMessage: string := "خطا در بارگذاری آزمون روزانه"
  const SaveErrorMessage: string := "خطا در ثبت نتیجه آزمون"

  function Meaning(w: QuizWord): string { w.meaning }

  function Meanings(ws: seq<QuizWord>): (r: seq<string>)
    ensures |r| == |ws|
    ensures forall k :: 0 <= k < |ws| ==> r[k] == ws[k].meaning
  {
    seq(|ws|, k requires 0 <= k < |ws| => ws[k].meaning)
  }

  /** `s.slice(0, n)`. */
  function Take<T>(s: seq<T>, n: nat): (r: seq<T>)
    ensures |r| == Min(n, |s|)
    ensures forall k :: 0 <= k < |r| ==> r[k] == s[k]
  {
    if n <= |s| then s[..n] else s
  }

  lemma TakeFrom<T>(s: seq<T>, n: nat, x: T)
    requires x in Take(s, n)
    ensures x in s
  {
  }

  /** A prefix holds no element more often than the whole sequence. */
  lemma TakeSubMultiset<T>(s: seq<T>, n: nat)
    ensures multiset(Take(s, n)) <= multiset(s)
  {
    if n <= |s| {
      assert s == s[..n] + s[n..];
      assert multiset(s) == multiset(s[..n]) + multiset(s[n..]);
    }
  }

  /** No two words of the list share an id. */
  predicate UniqueIds(userWords: seq<QuizWord>)
  {
    forall i, j :: 0 <= i < j < |userWords| ==> userWords[i].id != userWords[j].id
  }

  function OtherWords(userWords: seq<QuizWord>, word: QuizWord): (r: seq<QuizWord>)
    ensures forall w :: w in r <==> w in userWords && w.id != word.id
  {
    FilterMembers(userWords, (w: QuizWord) => w.id != word.id);
    Filter(userWords, (w: QuizWord) => w.id != word.id)
  }

  /** The meanings of up to three other words, in shuffled order. */
  function WrongMeanings(userWords: seq<QuizWord>, word: QuizWord, coin: (QuizWord, QuizWord) -> bool): (r: seq<string>)
    ensures |r| == Min(WrongOptions, |OtherWords(userWords, word)|)
  {
    Meanings(Take(SortBy(OtherWords(userWords, word), coin), WrongOptions))
  }

  /** Each wrong option is the meaning of a word of the list with another id. */
  lemma WrongMeaningsFromOthers(userWords: seq<QuizWord>, word: QuizWord, coin: (QuizWord, QuizWord) -> bool)
    ensures forall o :: o in WrongMeanings(userWords, word, coin) ==>
              exists w :: w in userWords && w.id != word.id && w.meaning == o
  {
    var sorted := SortBy(OtherWords(userWords, word), coin);
    var chosen := Take(sorted, WrongOptions);
    var incorrect := WrongMeanings(userWords, word, coin);
    forall o | o in incorrect
      ensures exists w :: w in userWords && w.id != word.id && w.meaning == o
    {
      var k :| 0 <= k < |incorrect| && incorrect[k] == o;
      TakeFrom(sorted, WrongOptions, chosen[k]);
      assert chosen[k] in multiset(sorted);
    }
  }

  /** The question for `word`: its meaning and up to three meanings of other words, in a
      shuffled order. */
  function QuestionFor(userWords: seq<QuizWord>, word: QuizWord,
                       coin: (QuizWord, QuizWord) -> bool, optionCoin: (string, string) -> bool): (q: Question)
    ensures q.id == word.id && q.word == word.word && q.correctAnswer == word.meaning
    ensures multiset(q.options) == multiset(WrongMeanings(userWords, word, coin)) + multiset{word.meaning}
    ensures |q.options| == |WrongMeanings(userWords, word, coin)| + 1
  {
    Question(word.id, word.word, word.meaning, SortBy(WrongMeanings(userWords, word, coin) + [word.meaning], optionCoin))
  }

  /** A question's options hold its right answer and at most three meanings of other
      words; with ids unique and at least four words there are exactly four options. */
  lemma QuestionOptions(userWords: seq<QuizWord>, word: QuizWord,
                        coin: (QuizWord, QuizWord) -> bool, optionCoin: (string, string) -> bool)
    ensures var q := QuestionFor(userWords, word, coin, optionCoin);
      && word.meaning in q.options
      && 1 <= |q.options| <= WrongOptions + 1
      && (forall o :: o in q.options ==>
            o == word.meaning || exists w :: w in userWords && w.id != word.id && w.meaning == o)
      && (|userWords| > WrongOptions && word in userWords && UniqueIds(userWords) ==> |q.options| == WrongOptions + 1)
  {
    var q := QuestionFor(userWords, word, coin, optionCoin);
    var incorrect := WrongMeanings(userWords, word, coin);
    assert word.meaning in multiset(q.options);
    WrongMeaningsFromOthers(userWords, word, coin);
    forall o | o in q.options
      ensures o == word.meaning || o in incorrect
    {
      assert o in multiset(q.options);
    }
    if |userWords| > WrongOptions && word in userWords && UniqueIds(userWords) {
      OthersCount(userWords, word);
    }
  }

  /** With ids unique and the word in the list, every other word passes the id filter. */
  lemma OthersCount(userWords: seq<QuizWord>, word: QuizWord)
    requires word in userWords && UniqueIds(userWords)
    ensures |OtherWords(userWords, word)| == |userWords| - 1
  {
    var p := (w: QuizWord) => w.id != word.id;
    var k :| 0 <= k < |userWords| && userWords[k] == word;
    forall j | 0 <= j < |userWords| && j != k ensures p(userWords[j]) {
      assert j < k ==> userWords[j].id != userWords[k].id;
      assert j > k ==> userWords[k].id != userWords[j].id;
    }
    FilterDropsOne(userWords, k, p);
  }

  /** `generateQuiz`'s questions: five of the words in shuffled order, each with its
      options. */
  function BuildQuestions(userWords: seq<QuizWord>, coin: (QuizWord, QuizWord) -> bool,
                          optionCoin: (string, string) -> bool): (r: seq<Question>)
    ensures |r| == Min(QuestionCount, |userWords|)
    ensures forall k :: 0 <= k < |r| ==>
              r[k] == QuestionFor(userWords, Take(SortBy(userWords, coin), QuestionCount)[k], coin, optionCoin)
  {
    var picked := Take(SortBy(userWords, coin), QuestionCount);
    seq(|picked|, k requires 0 <= k < |picked| => QuestionFor(userWords, picked[k], coin, optionCoin))
  }

  /** The question asks about one of the words: its id and right answer are that
      word's. */
  predicate AsksWordOf(userWords: seq<QuizWord>, q: Question)
  {
    exists w :: w in userWords && w.id == q.id && w.meaning == q.correctAnswer
  }

  /** Every question asks about one of the words (the asked words are drawn from the list
      without repetition beyond its own), and each question's right answer is among its
      options. */
  lemma QuestionsFromWords(userWords: seq<QuizWord>, coin: (QuizWord, QuizWord) -> bool,
                           optionCoin: (string, string) -> bool)
    ensures var qs := BuildQuestions(userWords, coin, optionCoin);
      && |qs| <= QuestionCount
      && (forall k :: 0 <= k < |qs| ==> qs[k].correctAnswer in qs[k].options)
      && (forall k :: 0 <= k < |qs| ==> AsksWordOf(userWords, qs[k]))
      && multiset(Take(SortBy(userWords, coin), QuestionCount)) <= multiset(userWords)
  {
    AnswersAmongOptions(userWords, coin, optionCoin);
    QuestionsAskWords(userWords, coin, optionCoin);
    TakeSubMultiset(SortBy(userWords, coin), QuestionCount);
  }

  lemma AnswersAmongOptions(userWords: seq<QuizWord>, coin: (QuizWord, QuizWord) -> bool,
                            optionCoin: (string, string) -> bool)
    ensures var qs := BuildQuestions(userWords, coin, optionCoin);
      forall k :: 0 <= k < |qs| ==> qs[k].correctAnswer in qs[k].options
  {
    var qs := BuildQuestions(userWords, coin, optionCoin);
    forall k | 0 <= k < |qs| ensures qs[k].correctAnswer in qs[k].options {
      AnswerAmongOptions(userWords, coin, optionCoin, k);
    }
  }

  lemma QuestionsAskWords(userWords: seq<QuizWord>, coin: (QuizWord, QuizWord) -> bool,
                          optionCoin: (string, string) -> bool)
    ensures var qs := BuildQuestions(userWords, coin, optionCoin);
      forall k :: 0 <= k < |qs| ==> AsksWordOf(userWords, qs[k])
  {
    var qs := BuildQuestions(userWords, coin, optionCoin);
    forall k | 0 <= k < |qs| ensures AsksWordOf(userWords, qs[k]) {
      QuestionFromWord(userWords, coin, optionCoin, k);
    }
  }

  lemma AnswerAmongOptions(userWords: seq<QuizWord>, coin: (QuizWord, QuizWord) -> bool,
                           optionCoin: (string, string) -> bool, k: nat)
    requires k < Min(QuestionCount, |userWords|)
    ensures var q := BuildQuestions(userWords, coin, optionCoin)[k]; q.correctAnswer in q.options
  {
    QuestionOptions(userWords, Take(SortBy(userWords, coin), QuestionCount)[k], coin, optionCoin);
  }

  lemma QuestionFromWord(userWords: seq<QuizWord>, coin: (QuizWord, QuizWord) -> bool,
                         optionCoin: (string, string) -> bool, k: nat)
    requires k < Min(QuestionCount, |userWords|)
    ensures var q := BuildQuestions(userWords, coin, optionCoin)[k];
      AsksWordOf(userWords, q)
  {
    var sorted := SortBy(userWords, coin);
    var word := Take(sorted, QuestionCount)[k];
    TakeFrom(sorted, QuestionCount, word);
    assert word in multiset(sorted);
    assert word in userWords;
  }

  /** What the `user_words` read returns: the words or an error (with its message when it
      is an `Error`). */
  datatype WordsReply = WordsFailed(message: Option<string>) | WordsLoaded(words: seq<QuizWord>)

  /** What the `quiz_history` read for today returns: the streaks stored on the rows. */
  datatype HistoryReply = HistoryFailed(message: Option<string>) | HistoryLoaded(streaks: seq<Option<nat>>)

  /** What the `user_stats` read returns. */
  datatype StatsReply = StatsFailed(code: string, message: Option<string>) | StatsLoaded(quizStreak: Option<nat>)

  /** The `quiz_history` row written when a quiz ends. */
  datatype HistoryRow = HistoryRow(score: nat, totalQuestions: nat, streak: nat)

  /** The streak after a quiz: one more for a pass, back to zero otherwise. */
  function NextStreak(streak: nat, score: nat): (r: nat)
    ensures r == streak + 1 <==> score >= PassScore
    ensures r == 0 <==> score < PassScore
  {
    if score >= PassScore then streak + 1 else 0
  }

  function OrElse(message: Option<string>, fallback: string): string
  {
    if message.Some? then message.value else fallback
  }

  class Quiz {
    var questions: seq<Question>
    var currentQuestionIndex: nat
    var selectedOption: Option<string>
    var score: nat
    var quizStarted: bool
    var quizCompleted: bool
    var isLoading: bool
    var quizAvailable: bool
    var streak: nat
    var error: Option<string>

    constructor()
      ensures questions == [] && currentQuestionIndex == 0 && selectedOption.None? && score == 0
      ensures !quizStarted && !quizCompleted && isLoading && quizAvailable && streak == 0 && error.None?
    {
      questions := [];
      currentQuestionIndex := 0;
      selectedOption := None;
      score := 0;
      quizStarted := false;
      quizCompleted := false;
      isLoading := true;
      quizAvailable := true;
      streak := 0;
      error := None;
    }

    /** `generateQuiz`: fewer than five words make the quiz unavailable and leave the
        questions alone; otherwise the questions are built and the quiz is available. */
    method GenerateQuiz(reply: WordsReply, coin: (QuizWord, QuizWord) -> bool, optionCoin: (string, string) -> bool)
      modifies this`questions, this`quizAvailable, this`error
      ensures reply.WordsFailed? ==>
                !quizAvailable && questions == old(questions) && error == Some(OrElse(reply.message, GenerateErrorMessage))
      ensures reply.WordsLoaded? && |reply.words| < QuestionCount ==>
                !quizAvailable && questions == old(questions) && error == old(error)
      ensures reply.WordsLoaded? && |reply.words| >= QuestionCount ==>
                && quizAvailable && error == old(error)
                && questions == BuildQuestions(reply.words, coin, optionCoin)
                && |questions| == QuestionCount
    {
      if reply.WordsFailed? {
        error := Some(OrElse(reply.message, GenerateErrorMessage));
        quizAvailable := false;
        return;
      }
      if |reply.words| < QuestionCount {
        quizAvailable := false;
        return;
      }
      questions := BuildQuestions(reply.words, coin, optionCoin);
      quizAvailable := true;
    }

    /** `checkQuizStatus`: a quiz already taken today makes the quiz unavailable and takes
        the streak from that record; otherwise the stored streak is read (a missing row
        counts as 0) and a quiz is generated. Any failed read sets the error. */
    method CheckQuizStatus(history: HistoryReply, stats: StatsReply, words: WordsReply,
                           coin: (QuizWord, QuizWord) -> bool, optionCoin: (string, string) -> bool)
      modifies this`isLoading, this`error, this`quizAvailable, this`streak, this`questions
      ensures !isLoading
      ensures history.HistoryFailed? ==>
                error == Some(OrElse(history.message, LoadErrorMessage))
                && streak == old(streak) && quizAvailable == old(quizAvailable) && questions == old(questions)
      ensures history.HistoryLoaded? && |history.streaks| > 0 ==>
                && !quizAvailable && error.None? && questions == old(questions)
                && streak == (if history.streaks[0].Some? then history.streaks[0].value else 0)
      ensures history.HistoryLoaded? && |history.streaks| == 0 && stats.StatsFailed? && stats.code != NoRowCode ==>
                error == Some(OrElse(stats.message, LoadErrorMessage))
                && streak == old(streak) && quizAvailable == old(quizAvailable) && questions == old(questions)
      ensures history.HistoryLoaded? && |history.streaks| == 0 && !(stats.StatsFailed? && stats.code != NoRowCode) ==>
                && streak == (if stats.StatsLoaded? && stats.quizStreak.Some? then stats.quizStreak.value else 0)
                && (words.WordsLoaded? && |words.words| >= QuestionCount ==>
                      quizAvailable && error.None? && questions == BuildQuestions(words.words, coin, optionCoin))
                && (words.WordsLoaded? && |words.words| < QuestionCount ==>
                      !quizAvailable && error.None? && questions == old(questions))
                && (words.WordsFailed? ==> !quizAvailable && error.Some?)
    {
      isLoading := true;
      error := None;
      if history.HistoryFailed? {
        error := Some(OrElse(history.message, LoadErrorMessage));
        isLoading := false;
        return;
      }
      if |history.streaks| > 0 {
        quizAvailable := false;
        streak := if history.streaks[0].Some? then history.streaks[0].value else 0;
        isLoading := false;
        return;
      }
      if stats.StatsFailed? && stats.code != NoRowCode {
        error := Some(OrElse(stats.message, LoadErrorMessage));
        isLoading := false;
        return;
      }
      streak := if stats.StatsLoaded? && stats.quizStreak.Some? then stats.quizStreak.value else 0;
      GenerateQuiz(words, coin, optionCoin);
      isLoading := false;
    }

    /** `completeQuiz` with the score it sees: the quiz is marked completed, the history
        row is sent with the new streak, and the streak is kept only when both the insert
        and the `user_stats` update succeed. */
    method CompleteQuiz(seenScore: nat, inserted: bool, updated: bool) returns (row: HistoryRow)
      modifies this`quizCompleted, this`streak, this`error
      ensures quizCompleted
      ensures row == HistoryRow(seenScore, |questions|, NextStreak(old(streak), seenScore))
      ensures inserted && updated ==> streak == NextStreak(old(streak), seenScore) && error == old(error)
      ensures !(inserted && updated) ==> streak == old(streak) && error == Some(SaveErrorMessage)
    {
      quizCompleted := true;
      var newStreak := streak;
      if seenScore >= PassScore {
        newStreak := newStreak + 1;
      } else {
        newStreak := 0;
      }
      row := HistoryRow(seenScore, |questions|, newStreak);
      if !inserted || !updated {
        error := Some(SaveErrorMessage);
        return;
      }
      streak := newStreak;
    }

    /** `handleOptionSelect`: ignored once an option is chosen; otherwise the option is
        recorded and the score rises exactly when it is the right answer. The result is
        the score the pending timer will see, which is the one from before this answer. */
    method HandleOptionSelect(option: string) returns (timerScore: Option<nat>)
      requires currentQuestionIndex < |questions|
      modifies this`selectedOption, this`score
      ensures old(selectedOption).Some? ==> timerScore.None? && selectedOption == old(selectedOption) && score == old(score)
      ensures old(selectedOption).None? ==>
                && selectedOption == Some(option) && timerScore == Some(old(score))
                && score == old(score) + (if option == questions[currentQuestionIndex].correctAnswer then 1 else 0)
    {
      if selectedOption.Some? {
        return None;
      }
      selectedOption := Some(option);
      var correct := option == questions[currentQuestionIndex].correctAnswer;
      timerScore := Some(score);
      if correct {
        score := score + 1;
      }
    }

    /** The timer 1.5 s after an answer, as written: the next question, or the end of the
        quiz with the score captured when the answer was chosen. */
    method AnswerTimerAsWritten(timerScore: nat, inserted: bool, updated: bool) returns (row: Option<HistoryRow>)
      modifies this`currentQuestionIndex, this`selectedOption, this`quizCompleted, this`streak, this`error
      ensures old(currentQuestionIndex) + 1 < |questions| ==>
                currentQuestionIndex == old(currentQuestionIndex) + 1 && selectedOption.None? && row.None?
                && streak == old(streak) && quizCompleted == old(quizCompleted)
      ensures old(currentQuestionIndex) + 1 >= |questions| ==>
                currentQuestionIndex == old(currentQuestionIndex) && quizCompleted
                && row == Some(HistoryRow(timerScore, |questions|, NextStreak(old(streak), timerScore)))
    {
      if currentQuestionIndex + 1 < |questions| {
        currentQuestionIndex := currentQuestionIndex + 1;
        selectedOption := None;
        row := None;
      } else {
        var r := CompleteQuiz(timerScore, inserted, updated);
        row := Some(r);
      }
    }

    /** The timer with the quiz ended on the current score, so the last answer counts
        towards the recorded score and the streak. */
    method AnswerTimer(inserted: bool, updated: bool) returns (row: Option<HistoryRow>)
      modifies this`currentQuestionIndex, this`selectedOption, this`quizCompleted, this`streak, this`error
      ensures score == old(score)
      ensures old(currentQuestionIndex) + 1 < |questions| ==>
                currentQuestionIndex == old(currentQuestionIndex) + 1 && selectedOption.None? && row.None?
                && streak == old(streak) && quizCompleted == old(quizCompleted)
      ensures old(currentQuestionIndex) + 1 >= |questions| ==>
                currentQuestionIndex == old(currentQuestionIndex) && quizCompleted
                && row == Some(HistoryRow(score, |questions|, NextStreak(old(streak), score)))
                && (inserted && updated ==> (streak == old(streak) + 1 <==> score >= PassScore))
    {
      if currentQuestionIndex + 1 < |questions| {
        currentQuestionIndex := currentQuestionIndex + 1;
        selectedOption := None;
        row := None;
      } else {
        var r := CompleteQuiz(score, inserted, updated);
        row := Some(r);
      }
    }

    /** `handleRestart`. */
    method HandleRestart()
      modifies this`quizStarted, this`quizCompleted, this`quizAvailable
      ensures !quizStarted && !quizCompleted && !quizAvailable
    {
      quizStarted := false;
      quizCompleted := false;
      quizAvailable := false;
    }

    /** `startQuiz`. */
    method StartQuiz()
      modifies this`quizStarted, this`currentQuestionIndex, this`score, this`selectedOption, this`quizCompleted
      ensures quizStarted && currentQuestionIndex == 0 && score == 0 && selectedOption.None? && !quizCompleted
    {
      quizStarted := true;
      currentQuestionIndex := 0;
      score := 0;
      selectedOption := None;
      quizCompleted := false;
    }
  }

  /** One answer as the page gives it: the option is chosen, and 1.5 s later the timer
      that the choice started fires with the score it captured. */
  method AnswerAsWritten(quiz: Quiz, option: string, inserted: bool, updated: bool) returns (row: Option<HistoryRow>)
    requires quiz.currentQuestionIndex < |quiz.questions| && quiz.selectedOption.None?
    modifies quiz`selectedOption, quiz`score, quiz`currentQuestionIndex, quiz`quizCompleted, quiz`streak, quiz`error
    ensures quiz.score == old(quiz.score) + (if option == quiz.questions[old(quiz.currentQuestionIndex)].correctAnswer then 1 else 0)
    ensures old(quiz.currentQuestionIndex) + 1 < |quiz.questions| ==>
              && quiz.currentQuestionIndex == old(quiz.currentQuestionIndex) + 1 && quiz.selectedOption.None?
              && row.None? && quiz.streak == old(quiz.streak) && quiz.quizCompleted == old(quiz.quizCompleted)
    ensures old(quiz.currentQuestionIndex) + 1 >= |quiz.questions| ==>
              && quiz.quizCompleted
              && row == Some(HistoryRow(old(quiz.score), |quiz.questions|, NextStreak(old(quiz.streak), old(quiz.score))))
  {
    var timerScore := quiz.HandleOptionSelect(option);
    row := quiz.AnswerTimerAsWritten(timerScore.value, inserted, updated);
  }

  /** The discrepancy, on a quiz of five questions started with a streak of `streak`:
      two wrong answers, then three right ones. The screen shows a passing score of 3,
      but the quiz is recorded with 2 and the streak drops to zero. */
  method LastAnswerLost(questions: seq<Question>, streak: nat, wrong: seq<string>)
    returns (shown: nat, recorded: Option<HistoryRow>)
    requires |questions| == QuestionCount && |wrong| == 2
    requires wrong[0] != questions[0].correctAnswer && wrong[1] != questions[1].correctAnswer
    ensures shown == PassScore
    ensures recorded == Some(HistoryRow(PassScore - 1, QuestionCount, 0))
  {
    var quiz := new Quiz();
    // the state `checkQuizStatus` and `generateQuiz` leave behind
    quiz.questions := questions;
    quiz.streak := streak;
    quiz.StartQuiz();
    var row := AnswerAsWritten(quiz, wrong[0], true, true);
    row := AnswerAsWritten(quiz, wrong[1], true, true);
    row := AnswerAsWritten(quiz, questions[2].correctAnswer, true, true);
    row := AnswerAsWritten(quiz, questions[3].correctAnswer, true, true);
    recorded := AnswerAsWritten(quiz, questions[4].correctAnswer, true, true);
    shown := quiz.score;
  }
}
