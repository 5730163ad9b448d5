/**
  The page analyser (components/ai/text-analyzer.tsx): loading the user's word list,
  analysing the page text into keywords with the per-level and known counts, and saving a
  keyword to the user's list. The analysis service itself is outside the model: its
  answer is a parameter.
*/
module TextAnalyzer {
  import opened Common

  datatype Keyword = Keyword(word: string, level: string)

  datatype UserWord = UserWord(word: string, status: string)

  datatype Stats = Stats(beginner: nat, intermediate: nat, advanced: nat, total: nat, known: nat)

  const EmptyTextMessage: string := "متنی برای تحلیل وجود ندارد"
  const AnalyzeErrorMessage: string := "خطا در تحلیل متن"
  const SignInMessage: string := "لطفاً ابتدا وارد حساب کاربری خود شوید"
  const AlreadySavedMessage: string := "این کلمه قبلاً در لیست شما وجود دارد"
  const SavedMessage: string := "کلمه به لیست شما اضافه شد"
  const SaveErrorMessage: string := "خطا در ذخیره کلمه"

  /** A new word is due for review one day after it is saved. */
  const DayMillis: int := 24 * 60 * 60 * 1000

  /** `userWords.some(w => w.word === word)`. */
  predicate InUserList(userWords: seq<UserWord>, word: string)
  {
    exists k :: 0 <= k < |userWords| && userWords[k].word == word
  }

  /** The counts shown after an analysis. */
  function StatsOf(result: seq<Keyword>, userWords: seq<UserWord>): (s: Stats)
    ensures s.total == |result|
    ensures s.known <= s.total
  {
    Stats(Count(result, (k: Keyword) => k.level == "beginner"),
          Count(result, (k: Keyword) => k.level == "intermediate"),
          Count(result, (k: Keyword) => k.level == "advanced"),
          |result|,
          Count(result, (k: Keyword) => InUserList(userWords, k.word)))
  }

  /** The three level counts never add up to more than the keywords: each keyword has one
      level. */
  lemma {:induction false} LevelCountsFit(result: seq<Keyword>)
    ensures Count(result, (k: Keyword) => k.level == "beginner") + Count(result, (k: Keyword) => k.level == "intermediate")
            + Count(result, (k: Keyword) => k.level == "advanced") <= |result|
  {
    if result != [] {
      LevelCountsFit(result[1..]);
    }
  }

  /** The known count is at most the total, and so are the three level counts together. */
  lemma StatsBounds(result: seq<Keyword>, userWords: seq<UserWord>)
    ensures var s := StatsOf(result, userWords);
      && s.known <= s.total
      && s.beginner + s.intermediate + s.advanced <= s.total
  {
    LevelCountsFit(result);
  }

  /** With only the three levels present, the per-level counts add up to the total. */
  lemma {:induction false} LevelCountsCover(result: seq<Keyword>)
    requires forall k :: 0 <= k < |result| ==>
               result[k].level == "beginner" || result[k].level == "intermediate" || result[k].level == "advanced"
    ensures Count(result, (k: Keyword) => k.level == "beginner") + Count(result, (k: Keyword) => k.level == "intermediate")
            + Count(result, (k: Keyword) => k.level == "advanced") == |result|
  {
    if result != [] {
      LevelCountsCover(result[1..]);
    }
  }

  /** When every keyword is already in the user's list, all of them count as known. */
  lemma AllKnown(result: seq<Keyword>, userWords: seq<UserWord>)
    requires forall k :: 0 <= k < |result| ==> InUserList(userWords, result[k].word)
    ensures StatsOf(result, userWords).known == |result|
  {
    FilterAll(result, (k: Keyword) => InUserList(userWords, k.word));
  }

  /** The row a save asks the database to insert. */
  datatype InsertRow = InsertRow(userId: string, word: string, meaning: string, status: string, level: string,
                                 nextReviewAt: int)

  /** The outcome of loading the user's words: the rows (possibly none) or a failure. */
  datatype WordsFetch = Fetched(data: Option<seq<UserWord>>) | FetchFailed

  /** The component's state. */
  /** The counts `handleAnalyzeText` takes of the analysis: one filter per level, the
      length, and the filter of the words in the user's list. */
  method CountKeywords(result: seq<Keyword>, listed: seq<UserWord>) returns (s: Stats)
    ensures s == StatsOf(result, listed)
  {
    var beginner := |Filter(result, (k: Keyword) => k.level == "beginner")|;
    var intermediate := |Filter(result, (k: Keyword) => k.level == "intermediate")|;
    var advanced := |Filter(result, (k: Keyword) => k.level == "advanced")|;
    var total := |result|;
    var known := |Filter(result, (k: Keyword) => InUserList(listed, k.word))|;
    s := Stats(beginner, intermediate, advanced, total, known);
  }

  class Analyzer {
    var keywords: seq<Keyword>
    var isAnalyzing: bool
    var isLoading: bool
    var userWords: seq<UserWord>
    var stats: Stats

    constructor()
      ensures keywords == [] && !isAnalyzing && isLoading && userWords == []
      ensures stats == Stats(0, 0, 0, 0, 0)
    {
      keywords := [];
      isAnalyzing := false;
      isLoading := true;
      userWords := [];
      stats := Stats(0, 0, 0, 0, 0);
    }

    /** `fetchUserWords`: without a user, or when the query fails, the list stays; a
        query without data gives the empty list. Loading ends in every case, since the
        early return also runs the `finally` block. */
    method FetchUserWords(signedIn: bool, outcome: WordsFetch)
      modifies this`userWords, this`isLoading
      ensures signedIn && outcome.Fetched? ==>
                userWords == (if outcome.data.Some? then outcome.data.value else [])
      ensures !(signedIn && outcome.Fetched?) ==> userWords == old(userWords)
      ensures !isLoading
    {
      if signedIn {
        if outcome.Fetched? {
          userWords := if outcome.data.Some? then outcome.data.value else [];
        }
      }
      isLoading := false;
    }

    /** `handleAnalyzeText`, with the analysis service's answer as `analysis` (`None`
        when it fails). Blank text is refused before any analysis. */
    method HandleAnalyzeText(text: string, analysis: Option<seq<Keyword>>) returns (error: Option<string>)
      modifies this`keywords, this`stats, this`isAnalyzing
      ensures Trim(text) == "" ==>
                error == Some(EmptyTextMessage) && keywords == old(keywords) && stats == old(stats)
                && isAnalyzing == old(isAnalyzing)
      ensures Trim(text) != "" && analysis.Some? ==>
                error.None? && keywords == analysis.value && stats == StatsOf(analysis.value, userWords)
                && !isAnalyzing
      ensures Trim(text) != "" && analysis.None? ==>
                error == Some(AnalyzeErrorMessage) && keywords == old(keywords) && stats == old(stats)
                && !isAnalyzing
    {
      var blank := Trim(text) == "";
      if blank {
        return Some(EmptyTextMessage);
      }
      var listed := userWords;
      isAnalyzing := true;
      if analysis.Some? {
        var counts := CountKeywords(analysis.value, listed);
        keywords, stats := analysis.value, counts;
        error := None;
      } else {
        error := Some(AnalyzeErrorMessage);
      }
      isAnalyzing := false;
    }

    /** `saveWord`, with the signed-in user (if any), the clock and the outcome of the
        insert as parameters. It returns the row it asks to insert (if it gets that far)
        and the message shown. A word already in the list is never inserted again. */
    method SaveWord(word: string, level: string, user: Option<string>, now: int, inserted: bool)
      returns (insert: Option<InsertRow>, message: string)
      modifies this`userWords
      ensures user.None? ==> insert.None? && message == SignInMessage && userWords == old(userWords)
      ensures user.Some? && InUserList(old(userWords), word) ==>
                insert.None? && message == AlreadySavedMessage && userWords == old(userWords)
      ensures user.Some? && !InUserList(old(userWords), word) ==>
                && insert == Some(InsertRow(user.value, word, "", "learning", level, now + DayMillis))
                && message == (if inserted then SavedMessage else SaveErrorMessage)
                && userWords == (if inserted then old(userWords) + [UserWord(word, "learning")] else old(userWords))
    {
      if user.None? {
        return None, SignInMessage;
      }
      var alreadyListed := InUserList(userWords, word);
      if alreadyListed {
        return None, AlreadySavedMessage;
      }
      insert := Some(InsertRow(user.value, word, "", "learning", level, now + DayMillis));
      if !inserted {
        return insert, SaveErrorMessage;
      }
      userWords := userWords + [UserWord(word, "learning")];
      message := SavedMessage;
    }
  }

  /** After a successful save the word is in the list, marked "learning", so a second
      save of it stops at the duplicate check; the words already there stay. */
  lemma SavedOnce(userWords: seq<UserWord>, word: string)
    ensures InUserList(userWords + [UserWord(word, "learning")], word)
    ensures forall w :: InUserList(userWords, w) ==> InUserList(userWords + [UserWord(word, "learning")], w)
  {
    var after := userWords + [UserWord(word, "learning")];
    assert after[|userWords|].word == word;
    forall w | InUserList(userWords, w) ensures InUserList(after, w) {
      var k :| 0 <= k < |userWords| && userWords[k].word == w;
      assert after[k].word == w;
    }
  }
}
