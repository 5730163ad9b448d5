/**
  The add-book form (components/admin/books/add-book-form.tsx): packing the book text into
  pages of about 500 characters, numbering the stored pages, and the list of word
  definitions built up in the form.
*/
module AddBookForm {
  import opened Common

  const CharsPerPage: nat := 500

  /** The running page text: each paragraph is added after a blank line, except onto a
      page that is still empty. */
  function Glue(group: seq<string>): string
  {
    if |group| == 0 then ""
    else
      var prefix := Glue(group[..|group| - 1]);
      prefix + (if prefix != "" then "\n\n" else "") + group[|group| - 1]
  }

  lemma GlueAppend(group: seq<string>, p: string)
    ensures Glue(group + [p]) == Glue(group) + (if Glue(group) != "" then "\n\n" else "") + p
  {
    assert (group + [p])[..|group|] == group;
  }

  /** A page text is empty exactly when all of its paragraphs are. */
  lemma {:induction false} GlueEmpty(group: seq<string>)
    ensures Glue(group) == "" <==> forall j :: 0 <= j < |group| ==> group[j] == ""
  {
    if |group| > 0 {
      GlueEmpty(group[..|group| - 1]);
    }
  }

  function Flatten(groups: seq<seq<string>>): seq<string>
  {
    if |groups| == 0 then [] else Flatten(groups[..|groups| - 1]) + groups[|groups| - 1]
  }

  lemma FlattenAppend(groups: seq<seq<string>>, g: seq<string>)
    ensures Flatten(groups + [g]) == Flatten(groups) + g
  {
    assert (groups + [g])[..|groups|] == groups;
  }

  /** The loop of `splitContentIntoPages` on the paragraph groups: `done` are the pages
      already pushed and `cur` the paragraphs of the page being filled. A paragraph that
      would take the page past the limit (the separator not counted) starts a new page;
      at the end the current page is kept only when its text is not empty. */
  function PackFrom(ps: seq<string>, limit: nat, done: seq<seq<string>>, cur: seq<string>): seq<seq<string>>
    decreases |ps|
  {
    if |ps| == 0 then (if Glue(cur) != "" then done + [cur] else done)
    else if |Glue(cur)| + |ps[0]| > limit then PackFrom(ps[1..], limit, done + [cur], [ps[0]])
    else PackFrom(ps[1..], limit, done, cur + [ps[0]])
  }

  /** Which paragraphs go on which page. */
  function Groups(ps: seq<string>, limit: nat): seq<seq<string>>
  {
    PackFrom(ps, limit, [], [])
  }

  /** The page texts `splitContentIntoPages` returns. */
  function Pages(ps: seq<string>, limit: nat): (r: seq<string>)
    ensures |r| == |Groups(ps, limit)|
  {
    var groups := Groups(ps, limit);
    seq(|groups|, k requires 0 <= k < |groups| => Glue(groups[k]))
  }

  /** `splitContentIntoPages` on the paragraphs the content splits into at blank lines. */
  method SplitContentIntoPages(paragraphs: seq<string>, charsPerPage: nat) returns (pages: seq<string>)
    ensures pages == Pages(paragraphs, charsPerPage)
  {
    pages := [];
    var currentPage := "";
    ghost var done: seq<seq<string>> := [];
    ghost var cur: seq<string> := [];
    for i := 0 to |paragraphs|
      invariant |pages| == |done|
      invariant forall k :: 0 <= k < |done| ==> pages[k] == Glue(done[k])
      invariant currentPage == Glue(cur)
      invariant PackFrom(paragraphs[i..], charsPerPage, done, cur) == Groups(paragraphs, charsPerPage)
    {
      var paragraph := paragraphs[i];
      assert paragraphs[i..][1..] == paragraphs[i + 1..];
      if |currentPage| + |paragraph| > charsPerPage {
        pages := pages + [currentPage];
        done := done + [cur];
        currentPage := paragraph;
        cur := [paragraph];
        ghost var empty: seq<string> := [];
        assert Glue(cur) == Glue(empty + [paragraph]) by { assert empty + [paragraph] == cur; GlueAppend(empty, paragraph); }
      } else {
        GlueAppend(cur, paragraph);
        currentPage := currentPage + (if currentPage != "" then "\n\n" else "") + paragraph;
        cur := cur + [paragraph];
      }
    }
    if currentPage != "" {
      pages := pages + [currentPage];
      done := done + [cur];
    }
  }

  /** Every paragraph is on exactly one page, in input order; only trailing paragraphs
      with no text can be left out, and with non-empty paragraphs none is. */
  lemma {:induction false} PackFromPartition(ps: seq<string>, limit: nat, done: seq<seq<string>>, cur: seq<string>)
    ensures var f := Flatten(PackFrom(ps, limit, done, cur));
            var all := Flatten(done) + cur + ps;
            && f <= all
            && (forall j :: |f| <= j < |all| ==> all[j] == "")
    decreases |ps|
  {
    if |ps| == 0 {
      GlueEmpty(cur);
      FlattenAppend(done, cur);
      assert Flatten(done) + cur + ps == Flatten(done) + cur;
    } else {
      var all := Flatten(done) + cur + ps;
      if |Glue(cur)| + |ps[0]| > limit {
        PackFromPartition(ps[1..], limit, done + [cur], [ps[0]]);
        FlattenAppend(done, cur);
        assert Flatten(done + [cur]) + [ps[0]] + ps[1..] == all;
      } else {
        PackFromPartition(ps[1..], limit, done, cur + [ps[0]]);
        assert Flatten(done) + (cur + [ps[0]]) + ps[1..] == all;
      }
    }
  }

  lemma PagesPartition(ps: seq<string>, limit: nat)
    ensures var f := Flatten(Groups(ps, limit));
            && f <= ps
            && (forall j :: |f| <= j < |ps| ==> ps[j] == "")
            && ((forall j :: 0 <= j < |ps| ==> ps[j] != "") ==> f == ps)
    ensures forall k :: 0 <= k < |Groups(ps, limit)| ==> Pages(ps, limit)[k] == Glue(Groups(ps, limit)[k])
  {
    PackFromPartition(ps, limit, [], []);
    assert Flatten([]) + [] + ps == ps;
    var f := Flatten(Groups(ps, limit));
    assert |f| < |ps| ==> ps[|f|] == "";
  }

  /** The shape of the pushed pages: every page after the first has paragraphs and was
      started only because the previous page plus its first paragraph is over the limit;
      and a paragraph joins a page only when the page so far plus the paragraph is within
      it. */
  ghost predicate BreaksAt(groups: seq<seq<string>>, limit: nat)
  {
    && (forall k :: 0 < k < |groups| ==> |groups[k]| >= 1 && |Glue(groups[k - 1])| + |groups[k][0]| > limit)
    && (forall k, j {:trigger groups[k][j]} :: 0 <= k < |groups| && 1 <= j < |groups[k]| ==>
          |Glue(groups[k][..j])| + |groups[k][j]| <= limit)
  }

  lemma JoinedWithin(g: seq<string>, limit: nat, p: string)
    requires forall j {:trigger g[j]} :: 1 <= j < |g| ==> |Glue(g[..j])| + |g[j]| <= limit
    requires |Glue(g)| + |p| <= limit
    ensures forall j {:trigger (g + [p])[j]} :: 1 <= j < |g + [p]| ==> |Glue((g + [p])[..j])| + |(g + [p])[j]| <= limit
  {
    forall j | 1 <= j < |g + [p]|
      ensures |Glue((g + [p])[..j])| + |(g + [p])[j]| <= limit
    {
      if j < |g| {
        assert (g + [p])[..j] == g[..j];
        assert (g + [p])[j] == g[j];
      } else {
        assert (g + [p])[..j] == g;
      }
    }
  }

  /** A paragraph over the limit closes the current page and starts the next. */
  lemma BreaksPush(done: seq<seq<string>>, cur: seq<string>, p: string, limit: nat)
    requires BreaksAt(done + [cur], limit)
    requires |Glue(cur)| + |p| > limit
    ensures BreaksAt(done + [cur] + [[p]], limit)
  {
    var before := done + [cur];
    var groups := before + [[p]];
    forall k | 0 < k < |groups| ensures |groups[k]| >= 1 && |Glue(groups[k - 1])| + |groups[k][0]| > limit {
      if k < |before| {
        assert groups[k] == before[k] && groups[k - 1] == before[k - 1];
      } else {
        assert groups[k] == [p] && groups[k - 1] == cur;
      }
    }
    forall k, j | 0 <= k < |groups| && 1 <= j < |groups[k]|
      ensures |Glue(groups[k][..j])| + |groups[k][j]| <= limit
    {
      assert groups[|before|] == [p];
      assert k < |before| && groups[k] == before[k];
    }
  }

  /** A paragraph within the limit joins the current page. */
  lemma BreaksJoin(done: seq<seq<string>>, cur: seq<string>, p: string, limit: nat)
    requires BreaksAt(done + [cur], limit)
    requires |done| > 0 ==> |cur| >= 1
    requires |Glue(cur)| + |p| <= limit
    ensures BreaksAt(done + [cur + [p]], limit)
  {
    JoinKeepsStarts(done, cur, p, limit);
    JoinKeepsFits(done, cur, p, limit);
  }

  lemma JoinKeepsStarts(done: seq<seq<string>>, cur: seq<string>, p: string, limit: nat)
    requires BreaksAt(done + [cur], limit)
    requires |done| > 0 ==> |cur| >= 1
    ensures var groups := done + [cur + [p]];
      forall k :: 0 < k < |groups| ==> |groups[k]| >= 1 && |Glue(groups[k - 1])| + |groups[k][0]| > limit
  {
    var groups := done + [cur + [p]];
    var before := done + [cur];
    forall k | 0 < k < |groups| ensures |groups[k]| >= 1 && |Glue(groups[k - 1])| + |groups[k][0]| > limit {
      assert groups[k - 1] == before[k - 1];
      if k < |done| {
        assert groups[k] == before[k];
      } else {
        assert groups[k] == cur + [p] && before[k] == cur;
        assert (cur + [p])[0] == cur[0];
      }
    }
  }

  lemma JoinKeepsFits(done: seq<seq<string>>, cur: seq<string>, p: string, limit: nat)
    requires BreaksAt(done + [cur], limit)
    requires |Glue(cur)| + |p| <= limit
    ensures var groups := done + [cur + [p]];
      forall k, j {:trigger groups[k][j]} :: 0 <= k < |groups| && 1 <= j < |groups[k]| ==>
        |Glue(groups[k][..j])| + |groups[k][j]| <= limit
  {
    var groups := done + [cur + [p]];
    var before := done + [cur];
    assert before[|done|] == cur;
    forall j | 1 <= j < |cur| ensures |Glue(cur[..j])| + |cur[j]| <= limit {
      assert before[|done|][j] == cur[j];
    }
    JoinedWithin(cur, limit, p);
    forall k, j | 0 <= k < |groups| && 1 <= j < |groups[k]|
      ensures |Glue(groups[k][..j])| + |groups[k][j]| <= limit
    {
      if k < |done| {
        assert groups[k] == before[k];
      } else {
        assert groups[k] == cur + [p];
      }
    }
  }

  lemma {:induction false} PackFromBreaks(ps: seq<string>, limit: nat, done: seq<seq<string>>, cur: seq<string>)
    requires BreaksAt(done + [cur], limit)
    requires |done| > 0 ==> |cur| >= 1
    ensures BreaksAt(PackFrom(ps, limit, done, cur), limit)
    decreases |ps|
  {
    if |ps| == 0 {
      if Glue(cur) == "" {
        assert done == (done + [cur])[..|done|];
      }
    } else if |Glue(cur)| + |ps[0]| > limit {
      BreaksPush(done, cur, ps[0], limit);
      PackFromBreaks(ps[1..], limit, done + [cur], [ps[0]]);
    } else {
      BreaksJoin(done, cur, ps[0], limit);
      PackFromBreaks(ps[1..], limit, done, cur + [ps[0]]);
    }
  }

  /** The pages already pushed stay, and once the current page has a paragraph no later
      page is without one. */
  lemma {:induction false} PackFromKeeps(ps: seq<string>, limit: nat, done: seq<seq<string>>, cur: seq<string>)
    ensures done <= PackFrom(ps, limit, done, cur)
    ensures |cur| >= 1 ==> forall k :: |done| <= k < |PackFrom(ps, limit, done, cur)| ==> |PackFrom(ps, limit, done, cur)[k]| >= 1
    decreases |ps|
  {
    if |ps| > 0 {
      if |Glue(cur)| + |ps[0]| > limit {
        PackFromKeeps(ps[1..], limit, done + [cur], [ps[0]]);
      } else {
        PackFromKeeps(ps[1..], limit, done, cur + [ps[0]]);
      }
    }
  }

  lemma PagesBreaks(ps: seq<string>, limit: nat)
    ensures BreaksAt(Groups(ps, limit), limit)
  {
    var none: seq<seq<string>> := [];
    var empty: seq<string> := [];
    assert none + [empty] == [[]];
    PackFromBreaks(ps, limit, none, empty);
  }

  /** The first page is the empty page "" exactly when the first paragraph alone is over
      the limit. */
  lemma FirstPageEmpty(ps: seq<string>, limit: nat)
    requires |ps| > 0
    ensures |ps[0]| > limit <==> |Groups(ps, limit)| > 0 && Groups(ps, limit)[0] == []
  {
    var none: seq<seq<string>> := [];
    var empty: seq<string> := [];
    assert Glue(empty) == "";
    if |ps[0]| > limit {
      assert Groups(ps, limit) == PackFrom(ps[1..], limit, none + [empty], [ps[0]]);
      PackFromKeeps(ps[1..], limit, none + [empty], [ps[0]]);
      assert [empty] <= Groups(ps, limit);
    } else {
      assert empty + [ps[0]] == [ps[0]];
      assert Groups(ps, limit) == PackFrom(ps[1..], limit, none, [ps[0]]);
      PackFromKeeps(ps[1..], limit, none, [ps[0]]);
    }
  }

  /** A page made of two or more paragraphs is at most two characters over the limit (the
      blank line before the last paragraph is not counted); a page that went over by more
      is a single paragraph. */
  lemma PageLength(g: seq<string>, limit: nat)
    requires |g| >= 2
    requires |Glue(g[..|g| - 1])| + |g[|g| - 1]| <= limit
    ensures |Glue(g)| <= limit + 2
  {
  }

  lemma PagesLength(ps: seq<string>, limit: nat)
    ensures forall k :: 0 <= k < |Groups(ps, limit)| && |Groups(ps, limit)[k]| >= 2 ==>
              |Pages(ps, limit)[k]| <= limit + 2
  {
    PagesBreaks(ps, limit);
    var groups := Groups(ps, limit);
    forall k | 0 <= k < |groups| && |groups[k]| >= 2
      ensures |Pages(ps, limit)[k]| <= limit + 2
    {
      var g := groups[k];
      assert |Glue(g[..|g| - 1])| + |g[|g| - 1]| <= limit;
      PageLength(g, limit);
    }
  }

  /** Content made only of empty paragraphs gives no pages at all. */
  lemma {:induction false} NoTextNoPages(ps: seq<string>, limit: nat, cur: seq<string>)
    requires forall j :: 0 <= j < |ps| ==> ps[j] == ""
    requires Glue(cur) == ""
    ensures PackFrom(ps, limit, [], cur) == []
    decreases |ps|
  {
    if |ps| > 0 {
      GlueAppend(cur, ps[0]);
      NoTextNoPages(ps[1..], limit, cur + [ps[0]]);
    }
  }

  /** A row of `book_contents`. */
  datatype ContentRow = ContentRow(bookId: string, page: int, content: string)

  /** The content part of `handleSubmit`: the text is packed into 500-character pages,
      stored as pages 1..n in order, and the book's `totalPages` becomes n. */
  method StoreContentPages(bookId: string, paragraphs: seq<string>) returns (rows: seq<ContentRow>, totalPages: nat)
    ensures totalPages == |rows| == |Pages(paragraphs, CharsPerPage)|
    ensures forall i :: 0 <= i < |rows| ==>
              rows[i] == ContentRow(bookId, i + 1, Pages(paragraphs, CharsPerPage)[i])
  {
    var contentPages := SplitContentIntoPages(paragraphs, CharsPerPage);
    rows := [];
    for i := 0 to |contentPages|
      invariant |rows| == i
      invariant forall j :: 0 <= j < i ==> rows[j] == ContentRow(bookId, j + 1, contentPages[j])
    {
      rows := rows + [ContentRow(bookId, i + 1, contentPages[i])];
    }
    totalPages := |contentPages|;
  }

  /** An entry of the form's word list. */
  datatype WordDefinition = WordDefinition(word: string, meaning: string, level: string, explanation: string)

  function DefinedWord(d: WordDefinition): string { d.word }

  const DefaultLevel: string := "intermediate"

  class WordDefinitions {
    var definedWords: seq<WordDefinition>
    var selectedWord: string
    var wordMeaning: string
    var wordExplanation: string
    var wordLevel: string

    constructor()
      ensures definedWords == [] && selectedWord == "" && wordMeaning == ""
      ensures wordExplanation == "" && wordLevel == DefaultLevel
    {
      definedWords := [];
      selectedWord := "";
      wordMeaning := "";
      wordExplanation := "";
      wordLevel := DefaultLevel;
    }

    /** `handleTextSelection`: a selection with text picks its trimmed text. */
    method HandleTextSelection(selection: string)
      modifies this`selectedWord
      ensures selectedWord == if Trim(selection) != "" then Trim(selection) else old(selectedWord)
    {
      if Trim(selection) != "" {
        selectedWord := Trim(selection);
      }
    }

    /** `addWordDefinition`: refused without a word or a meaning; otherwise exactly one
        entry is appended and the fields are reset, the level to "intermediate". */
    method AddWordDefinition() returns (added: bool)
      modifies this
      ensures added <==> old(selectedWord) != "" && old(wordMeaning) != ""
      ensures !added ==> unchanged(this)
      ensures added ==>
                && definedWords == old(definedWords) + [WordDefinition(old(selectedWord), old(wordMeaning), old(wordLevel), old(wordExplanation))]
                && selectedWord == "" && wordMeaning == "" && wordExplanation == "" && wordLevel == DefaultLevel
    {
      if selectedWord == "" || wordMeaning == "" {
        return false;
      }
      definedWords := definedWords + [WordDefinition(selectedWord, wordMeaning, wordLevel, wordExplanation)];
      selectedWord := "";
      wordMeaning := "";
      wordExplanation := "";
      wordLevel := DefaultLevel;
      added := true;
    }

    /** `removeWordDefinition`: every entry for that word goes, the rest stay in order. */
    method RemoveWordDefinition(word: string)
      modifies this`definedWords
      ensures definedWords == RemoveKey(old(definedWords), DefinedWord, word)
    {
      definedWords := RemoveKey(definedWords, DefinedWord, word);
    }
  }

  /** Adding a definition and then removing its word leaves no entry for that word and
      every other entry as it was. */
  lemma AddThenRemove(words: seq<WordDefinition>, d: WordDefinition)
    ensures RemoveKey(words + [d], DefinedWord, d.word) == RemoveKey(words, DefinedWord, d.word)
  {
    RemoveKeyAppend(words, [d], DefinedWord, d.word);
    assert RemoveKey(words, DefinedWord, d.word) + [] == RemoveKey(words, DefinedWord, d.word);
  }
}
