/**
  The page-flip reader (components/reader/page-flip/book-reader-with-flip.tsx): turning a
  page's text into clickable word spans, laying the stored pages out for the flip book,
  and the page and bookmark handlers.
*/
module BookReaderWithFlip {
  import opened Common

  // ---------------------------------------------------------------------------
  // Removing tags: `content.replace(/<[^>]*>/g, "")`

  /** The position just after the first `>` of `s`, if there is one. */
  function AfterClose(s: string): (r: nat)
    requires '>' in s
    ensures 1 <= r <= |s| && s[r - 1] == '>' && '>' !in s[..r - 1]
  {
    if s[0] == '>' then 1 else AfterClose(s[1..]) + 1
  }

  /** Scanning from the left, a `<` with a `>` somewhere after it starts a tag that
      runs to that first `>` and is dropped; every other character is kept. Text
      without `<` is left alone. */
  function StripTags(s: string): (r: string)
    ensures '<' !in s ==> r == s
  {
    if s == [] then []
    else if s[0] == '<' && '>' in s[1..] then StripTags(s[1..][AfterClose(s[1..])..])
    else [s[0]] + StripTags(s[1..])
  }

  /** What is left is part of the text in order and contains no complete tag (no `<`
      has a `>` after it). */
  lemma StripTagsProperties(s: string)
    ensures multiset(StripTags(s)) <= multiset(s)
    ensures forall i, j :: 0 <= i < j < |StripTags(s)| && StripTags(s)[i] == '<' ==> StripTags(s)[j] != '>'
    ensures forall c :: c in StripTags(s) ==> c in s
  {
    StripTagsSub(s);
    StripTagsChars(s);
    StripTagsNoTag(s);
  }

  lemma {:induction false} StripTagsSub(s: string)
    ensures multiset(StripTags(s)) <= multiset(s)
  {
    if s != [] {
      assert s == [s[0]] + s[1..];
      assert multiset(s) == multiset([s[0]]) + multiset(s[1..]);
      if s[0] == '<' && '>' in s[1..] {
        var k := AfterClose(s[1..]);
        var rest := s[1..][k..];
        StripTagsSub(rest);
        assert s[1..] == s[1..][..k] + rest;
        assert multiset(s[1..]) == multiset(s[1..][..k]) + multiset(rest);
      } else {
        StripTagsSub(s[1..]);
        assert StripTags(s) == [s[0]] + StripTags(s[1..]);
        assert multiset(StripTags(s)) == multiset([s[0]]) + multiset(StripTags(s[1..]));
      }
    }
  }

  lemma StripTagsChars(s: string)
    ensures forall c :: c in StripTags(s) ==> c in s
  {
    StripTagsSub(s);
    forall c | c in StripTags(s) ensures c in s {
      assert multiset(StripTags(s))[c] > 0;
    }
  }

  lemma {:induction false} StripTagsNoTag(s: string)
    ensures forall i, j :: 0 <= i < j < |StripTags(s)| && StripTags(s)[i] == '<' ==> StripTags(s)[j] != '>'
  {
    if s != [] {
      if s[0] == '<' && '>' in s[1..] {
        StripTagsNoTag(s[1..][AfterClose(s[1..])..]);
      } else {
        StripTagsNoTag(s[1..]);
        StripTagsChars(s[1..]);
        var r := StripTags(s);
        var t := StripTags(s[1..]);
        assert r == [s[0]] + t;
        forall i, j | 0 <= i < j < |r| && r[i] == '<'
          ensures r[j] != '>'
        {
          assert r[j] == t[j - 1];
          if i == 0 {
            assert r[j] in t;
          } else {
            assert r[i] == t[i - 1];
          }
        }
      }
    }
  }

  // ---------------------------------------------------------------------------
  // Tokens: `sanitized.split(/(\s+)/)`

  predicate AllSpace(t: string) { forall k :: 0 <= k < |t| ==> IsSpace(t[k]) }

  predicate NoSpace(t: string) { forall k :: 0 <= k < |t| ==> !IsSpace(t[k]) }

  /** The longest prefix without white space. */
  function WordPrefix(s: string): (n: nat)
    ensures n <= |s| && NoSpace(s[..n])
    ensures n < |s| ==> IsSpace(s[n])
  {
    if s == [] || IsSpace(s[0]) then 0
    else
      var n := WordPrefix(s[1..]) + 1;
      assert forall k :: 1 <= k < n ==> s[..n][k] == s[1..][..n - 1][k - 1];
      n
  }

  /** The longest prefix of white space. */
  function SpacePrefix(s: string): (n: nat)
    ensures n <= |s| && AllSpace(s[..n])
    ensures n < |s| ==> !IsSpace(s[n])
  {
    if s == [] || !IsSpace(s[0]) then 0
    else
      var n := SpacePrefix(s[1..]) + 1;
      assert forall k :: 1 <= k < n ==> s[..n][k] == s[1..][..n - 1][k - 1];
      n
  }

  /** Splitting on white-space runs and keeping the runs: words (possibly empty, at the
      ends) alternate with runs of white space. */
  function Tokens(s: string): (r: seq<string>)
    ensures |r| >= 1
    decreases |s|
  {
    var w := WordPrefix(s);
    if w == |s| then [s]
    else
      var rest := s[w..];
      var sp := SpacePrefix(rest);
      [s[..w], rest[..sp]] + Tokens(rest[sp..])
  }

  /** One step of the split: a word, then a non-empty run of white space, then the
      tokens of what follows. */
  lemma TokensStep(s: string) returns (w: nat, sp: nat)
    requires WordPrefix(s) < |s|
    ensures w == WordPrefix(s) && 1 <= sp && w + sp <= |s|
    ensures NoSpace(s[..w]) && s[w..w + sp] != "" && AllSpace(s[w..w + sp])
    ensures Tokens(s) == [s[..w], s[w..w + sp]] + Tokens(s[w + sp..])
    ensures s == s[..w] + s[w..w + sp] + s[w + sp..]
  {
    w := WordPrefix(s);
    var rest := s[w..];
    sp := SpacePrefix(rest);
    assert rest[0] == s[w];
    assert Tokens(s) == [s[..w], rest[..sp]] + Tokens(rest[sp..]);
    SliceParts(s, w, sp);
  }

  lemma SliceParts(s: string, w: nat, sp: nat)
    requires w + sp <= |s|
    ensures s[w..][..sp] == s[w..w + sp] && s[w..][sp..] == s[w + sp..]
    ensures s == s[..w] + s[w..w + sp] + s[w + sp..]
  {
  }

  /** Every token is a word without white space or a non-empty run of white space. */
  lemma {:induction false} TokensShape(s: string)
    ensures forall t :: t in Tokens(s) ==> NoSpace(t) || (t != "" && AllSpace(t))
    decreases |s|
  {
    if WordPrefix(s) == |s| {
      assert s[..|s|] == s;
    } else {
      var w, sp := TokensStep(s);
      var tail := Tokens(s[w + sp..]);
      TokensShape(s[w + sp..]);
      assert forall t :: t in Tokens(s) ==> t == s[..w] || t == s[w..w + sp] || t in tail;
    }
  }

  function Concat(parts: seq<string>): string
  {
    if |parts| == 0 then "" else parts[0] + Concat(parts[1..])
  }

  lemma ConcatPair(a: string, b: string, rest: seq<string>)
    ensures Concat([a, b] + rest) == a + b + Concat(rest)
  {
    assert ([a, b] + rest)[1..] == [b] + rest;
    assert ([b] + rest)[1..] == rest;
  }

  /** The tokens laid end to end give back the text. */
  lemma {:induction false} TokensConcat(s: string)
    ensures Concat(Tokens(s)) == s
    decreases |s|
  {
    if WordPrefix(s) < |s| {
      var w, sp := TokensStep(s);
      TokensConcat(s[w + sp..]);
      ConcatPair(s[..w], s[w..w + sp], Tokens(s[w + sp..]));
    }
  }

  // ---------------------------------------------------------------------------
  // Wrapping

  const SpanOpen: string := "<span class=\"interactive-word\" data-word=\""
  const SpanMiddle: string := "\">"
  const SpanClose: string := "</span>"

  /** A white-space token is kept as it is; any other token `t` (an empty one included)
      becomes a span whose `data-word` is `t.trim()` and whose text is `t`. */
  function Wrap(t: string): string
  {
    if t != "" && AllSpace(t) then t
    else SpanOpen + Trim(t) + SpanMiddle + t + SpanClose
  }

  /** Reading the text back out of a wrapped token. */
  function Unwrap(x: string): string
  {
    if x != "" && AllSpace(x) then x
    else if |x| < |SpanOpen| + |SpanMiddle| + |SpanClose| then x
    else
      var n := (|x| - |SpanOpen| - |SpanMiddle| - |SpanClose|) / 2;
      x[|SpanOpen| + n + |SpanMiddle|..|SpanOpen| + n + |SpanMiddle| + n]
  }

  /** Trimming a word without white space changes nothing. */
  lemma TrimWord(t: string)
    requires NoSpace(t)
    ensures Trim(t) == t
  {
    assert TrimStart(t) == t;
  }

  /** A token of the split is recovered from its wrapping, and a word's `data-word` is
      the word itself. */
  lemma UnwrapWrap(t: string)
    requires NoSpace(t) || (t != "" && AllSpace(t))
    ensures Unwrap(Wrap(t)) == t
    ensures NoSpace(t) ==> Wrap(t) == SpanOpen + t + SpanMiddle + t + SpanClose
  {
    if NoSpace(t) {
      WrapWord(t);
      UnwrapSpan(t);
    }
  }

  lemma WrapWord(t: string)
    requires NoSpace(t)
    ensures Wrap(t) == SpanOpen + t + SpanMiddle + t + SpanClose
  {
    if t != "" {
      assert !IsSpace(t[0]);
      assert !AllSpace(t);
    }
    assert Wrap(t) == SpanOpen + Trim(t) + SpanMiddle + t + SpanClose;
    TrimWord(t);
  }

  lemma UnwrapSpan(t: string)
    ensures Unwrap(SpanOpen + t + SpanMiddle + t + SpanClose) == t
  {
    var head := SpanOpen + t + SpanMiddle;
    var x := head + t + SpanClose;
    assert x == SpanOpen + t + SpanMiddle + t + SpanClose;
    assert SpanOpen[0] == '<';
    assert x[0] == SpanOpen[0];
    assert !AllSpace(x);
    assert |SpanOpen| == 42 && |SpanMiddle| == 2 && |SpanClose| == 7;
    assert (|x| - 42 - 2 - 7) / 2 == |t|;
    SliceOfMiddle(head, t, SpanClose);
  }

  lemma SliceOfMiddle(a: string, b: string, c: string)
    ensures (a + b + c)[|a|..|a| + |b|] == b
  {
  }

  /** `processPageContent`. */
  function ProcessPageContent(content: string): string
  {
    var tokens := Tokens(StripTags(content));
    Concat(seq(|tokens|, k requires 0 <= k < |tokens| => Wrap(tokens[k])))
  }

  /** The wrapped tokens of a page, unwrapped and laid end to end, give back the text
      without its tags; white space is kept as it is and each word becomes one span. */
  lemma ProcessPageContentRoundTrip(content: string)
    ensures var tokens := Tokens(StripTags(content));
            var wrapped := seq(|tokens|, k requires 0 <= k < |tokens| => Wrap(tokens[k]));
            && ProcessPageContent(content) == Concat(wrapped)
            && Concat(seq(|wrapped|, k requires 0 <= k < |wrapped| => Unwrap(wrapped[k]))) == StripTags(content)
            && (forall k :: 0 <= k < |tokens| ==>
                  if NoSpace(tokens[k]) then wrapped[k] == SpanOpen + tokens[k] + SpanMiddle + tokens[k] + SpanClose
                  else tokens[k] != "" && AllSpace(tokens[k]) && wrapped[k] == tokens[k])
  {
    var tokens := Tokens(StripTags(content));
    var wrapped := seq(|tokens|, k requires 0 <= k < |tokens| => Wrap(tokens[k]));
    TokensShape(StripTags(content));
    forall k | 0 <= k < |tokens|
      ensures Unwrap(wrapped[k]) == tokens[k]
      ensures if NoSpace(tokens[k]) then wrapped[k] == SpanOpen + tokens[k] + SpanMiddle + tokens[k] + SpanClose
              else tokens[k] != "" && AllSpace(tokens[k]) && wrapped[k] == tokens[k]
    {
      assert tokens[k] in tokens;
      UnwrapWrap(tokens[k]);
    }
    assert seq(|wrapped|, k requires 0 <= k < |wrapped| => Unwrap(wrapped[k])) == tokens;
    TokensConcat(StripTags(content));
  }

  // ---------------------------------------------------------------------------
  // Pages

  /** A stored page of the book. */
  datatype ContentRow = ContentRow(page: nat, content: string)

  /** A page as the flip book takes it. */
  datatype FormattedPage = FormattedPage(id: string, content: string, pageNumber: nat)

  function PageId(page: nat): string { "page-" + NatStr(page) }

  /** `formattedPages`: the stored pages in order, each with id `page-N`, its number N
      and its processed text. */
  function FormattedPages(contents: seq<ContentRow>): (r: seq<FormattedPage>)
    ensures |r| == |contents|
    ensures forall k :: 0 <= k < |r| ==>
              r[k].pageNumber == contents[k].page && r[k].id == PageId(contents[k].page)
              && r[k].content == ProcessPageContent(contents[k].content)
  {
    seq(|contents|, k requires 0 <= k < |contents| =>
      FormattedPage(PageId(contents[k].page), ProcessPageContent(contents[k].content), contents[k].page))
  }

  /** Pages with different numbers get different ids. */
  lemma PageIdsDistinct(a: nat, b: nat)
    requires a != b
    ensures PageId(a) != PageId(b)
  {
    NatStrRoundTrip(a);
    NatStrRoundTrip(b);
    assert NatStr(a) == PageId(a)[5..] && NatStr(b) == PageId(b)[5..];
  }

  // ---------------------------------------------------------------------------
  // Handlers

  /** What a bookmark toggle writes. */
  datatype BookmarkWrite = NoWrite | InsertBookmark(page: int) | DeleteBookmark(page: int)

  class FlipReader {
    var page: int
    var isBookmarked: bool

    constructor(currentPage: int)
      ensures page == currentPage && !isBookmarked
    {
      page := currentPage;
      isBookmarked := false;
    }

    /** `handlePageChange`: the page always changes; the progress row is written only
        for a signed-in user. */
    method HandlePageChange(newPage: int, isLoggedIn: bool, hasUser: bool) returns (progressPage: Option<int>)
      modifies this`page
      ensures page == newPage
      ensures progressPage == if isLoggedIn && hasUser then Some(newPage) else None
    {
      page := newPage;
      if !isLoggedIn || !hasUser {
        return None;
      }
      progressPage := Some(newPage);
    }

    /** `toggleBookmark`: without a signed-in user nothing changes; otherwise the current
        page's bookmark is deleted or inserted and the flag flips. */
    method ToggleBookmark(isLoggedIn: bool, hasUser: bool) returns (write: BookmarkWrite)
      modifies this`isBookmarked
      ensures !(isLoggedIn && hasUser) ==> write == NoWrite && isBookmarked == old(isBookmarked)
      ensures isLoggedIn && hasUser ==>
                && isBookmarked == !old(isBookmarked)
                && write == (if old(isBookmarked) then DeleteBookmark(page) else InsertBookmark(page))
    {
      if !isLoggedIn || !hasUser {
        return NoWrite;
      }
      if isBookmarked {
        write := DeleteBookmark(page);
        isBookmarked := false;
      } else {
        write := InsertBookmark(page);
        isBookmarked := true;
      }
    }
  }
}
