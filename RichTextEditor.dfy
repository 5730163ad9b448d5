/**
  The difficult-word panel of the book editor (components/admin/books/rich-text-editor.tsx):
  the list of marked words, their highlight colours and positions, clicking on a word,
  adding and removing a word. The TipTap editor itself is represented by its plain text.
*/
module RichTextEditor {
  import opened Common

  datatype Level = Beginner | Intermediate | Advanced

  datatype Colour = Green | Blue | Purple

  datatype DifficultWord = DifficultWord(word: string, difficultyLevel: Level, persianMeaning: string, position: int)

  /** The highlight colour of a level: beginner green, intermediate blue, anything else
      purple. Different levels get different colours. */
  function ColourOf(level: Level): (c: Colour)
    ensures c == Green <==> level == Beginner
    ensures c == Blue <==> level == Intermediate
    ensures c == Purple <==> level == Advanced
  {
    match level
    case Beginner => Green
    case Intermediate => Blue
    case _ => Purple
  }

  /** A highlight the editor is asked to set: the characters `from` to `to` in a colour. */
  datatype Mark = Mark(from: int, to: int, colour: Colour)

  /** A stored word is highlighted only when its position lies inside the text. */
  predicate InText(w: DifficultWord, textLength: nat)
  {
    0 <= w.position < textLength
  }

  function MarkOf(w: DifficultWord): Mark
  {
    Mark(w.position, w.position + |w.word|, ColourOf(w.difficultyLevel))
  }

  /** The highlights set for a list of words, in list order. */
  function Marks(words: seq<DifficultWord>, textLength: nat): (r: seq<Mark>)
    ensures |r| == Count(words, w => InText(w, textLength))
    ensures forall m :: m in r ==> 0 <= m.from < textLength
  {
    if |words| == 0 then []
    else
      var w := words[|words| - 1];
      var rest := Marks(words[..|words| - 1], textLength);
      CountAppend(words[..|words| - 1], [w], v => InText(v, textLength));
      assert words[..|words| - 1] + [w] == words;
      if InText(w, textLength) then rest + [MarkOf(w)] else rest
  }

  /** `highlightDifficultWords`: one highlight per word whose position is inside the
      text, in the colour of its level and as long as the word. */
  method HighlightDifficultWords(words: seq<DifficultWord>, text: string) returns (marks: seq<Mark>)
    ensures marks == Marks(words, |text|)
  {
    marks := [];
    for i := 0 to |words|
      invariant marks == Marks(words[..i], |text|)
    {
      var w := words[i];
      assert words[..i + 1][..i] == words[..i];
      if 0 <= w.position < |text| {
        marks := marks + [Mark(w.position, w.position + |w.word|, ColourOf(w.difficultyLevel))];
      }
    }
    assert words[..|words|] == words;
  }

  /** A word whose position is in the text gets exactly its own mark; the marks are
      exactly those of the words in the text. */
  lemma {:induction false} MarksOfWords(words: seq<DifficultWord>, textLength: nat)
    ensures forall m :: m in Marks(words, textLength) <==>
              exists w :: w in words && InText(w, textLength) && m == MarkOf(w)
  {
    if |words| > 0 {
      var prefix := words[..|words| - 1];
      MarksOfWords(prefix, textLength);
      assert words == prefix + [words[|words| - 1]];
    }
  }

  /** What the info card shows for a word already in the list. */
  datatype WordInfo = WordInfo(word: string, level: Level, meaning: string)

  function InfoOf(w: DifficultWord): WordInfo
  {
    WordInfo(w.word, w.difficultyLevel, w.persianMeaning)
  }

  function WordOf(w: DifficultWord): string { w.word }

  class EditorPanel {
    var difficultWords: seq<DifficultWord>
    var selectedText: string
    var selectedWordInfo: Option<WordInfo>
    var newWordLevel: Level
    var newWordMeaning: string

    constructor()
      ensures difficultWords == [] && selectedText == "" && selectedWordInfo.None?
      ensures newWordLevel == Intermediate && newWordMeaning == ""
    {
      difficultWords := [];
      selectedText := "";
      selectedWordInfo := None;
      newWordLevel := Intermediate;
      newWordMeaning := "";
    }

    /** `handleWordClick`: a selection with text is trimmed and selected, and the info
        card shows the first listed word equal to it, or nothing. */
    method HandleWordClick(selection: string)
      modifies this`selectedText, this`selectedWordInfo
      ensures Trim(selection) == "" ==> selectedText == old(selectedText) && selectedWordInfo == old(selectedWordInfo)
      ensures Trim(selection) != "" ==> selectedText == Trim(selection)
      ensures Trim(selection) != "" ==>
                match Find(difficultWords, (w: DifficultWord) => w.word == Trim(selection))
                case None => selectedWordInfo.None?
                case Some(w) => selectedWordInfo == Some(InfoOf(w))
    {
      var text := Trim(selection);
      if text != "" {
        selectedText := text;
        var existingWord := Find(difficultWords, (w: DifficultWord) => w.word == text);
        if existingWord.Some? {
          selectedWordInfo := Some(InfoOf(existingWord.value));
        } else {
          selectedWordInfo := None;
        }
      }
    }

    /** `addDifficultWord` on the editor text `docText`: nothing without a selection;
        otherwise the selected text is appended with the first position where it occurs in
        the text, it is highlighted in its level's colour, and the form is reset. */
    method AddDifficultWord(docText: string) returns (mark: Option<Mark>)
      modifies this
      ensures old(selectedText) == "" ==> unchanged(this) && mark.None?
      ensures old(selectedText) != "" ==>
                var position := IndexOf(docText, old(selectedText));
                var added := DifficultWord(old(selectedText), old(newWordLevel), old(newWordMeaning), position);
                && difficultWords == old(difficultWords) + [added]
                && mark == Some(MarkOf(added))
                && selectedText == "" && selectedWordInfo.None?
                && newWordMeaning == "" && newWordLevel == Intermediate
    {
      if selectedText == "" {
        return None;
      }
      var position := IndexOf(docText, selectedText);
      var newDifficultWord := DifficultWord(selectedText, newWordLevel, newWordMeaning, position);
      difficultWords := difficultWords + [newDifficultWord];
      mark := Some(Mark(position, position + |selectedText|, ColourOf(newWordLevel)));
      newWordMeaning := "";
      newWordLevel := Intermediate;
      selectedText := "";
      selectedWordInfo := None;
    }

    /** `removeDifficultWord`: every entry for that word is dropped, the rest stay in
        order. */
    method RemoveDifficultWord(word: string)
      modifies this`difficultWords
      ensures difficultWords == RemoveKey(old(difficultWords), WordOf, word)
    {
      difficultWords := RemoveKey(difficultWords, WordOf, word);
    }
  }

  /** A word added for a selection that occurs in the text is stored at that occurrence,
      and so is highlighted when the list is drawn again. */
  lemma AddedWordHighlighted(docText: string, selected: string, level: Level, meaning: string)
    requires selected != "" && Includes(docText, selected)
    ensures var w := DifficultWord(selected, level, meaning, IndexOf(docText, selected));
            && InText(w, |docText|)
            && docText[w.position..w.position + |selected|] == selected
  {
  }
}
