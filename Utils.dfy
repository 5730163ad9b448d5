/**
  The string and collection helpers of lib/utils.ts: initials, the two truncations, the
  two slug builders, the reading-time estimate, grouping by a key and the level labels
  and colours. The regular expressions of the source are written out as functions on
  characters, one per `replace` step; `\s` is the white space of `Common.IsSpace`, JavaScript's full set.
*/
module Utils {
  import opened Common

  // ---------------------------------------------------------------------------
  // characters

  /** `toUpperCase` on the ASCII letters. */
  function Upper(c: char): char
  {
    if 'a' <= c <= 'z' then (c as int - 32) as char else c
  }

  function UpperStr(s: string): (r: string)
    ensures |r| == |s| && forall i :: 0 <= i < |s| ==> r[i] == Upper(s[i])
  {
    seq(|s|, i requires 0 <= i < |s| => Upper(s[i]))
  }

  predicate IsUpper(c: char) { 'A' <= c <= 'Z' }

  /** `\w`: an ASCII letter, a digit or `_`. */
  predicate IsWordChar(c: char) { 'a' <= c <= 'z' || 'A' <= c <= 'Z' || '0' <= c <= '9' || c == '_' }

  /** The characters a `slugify` result is made of. */
  predicate IsSlugChar(c: char) { 'a' <= c <= 'z' || '0' <= c <= '9' || c == '_' || c == '-' }

  /** No two dashes in a row. */
  predicate NoDoubleDash(s: string)
  {
    forall i :: 0 <= i < |s| - 1 ==> !(s[i] == '-' && s[i + 1] == '-')
  }

  // ---------------------------------------------------------------------------
  // getInitials

  predicate NonEmpty(part: string) { part != "" }

  /** `parts.map(n => n[0]).join("")`: an empty part gives `undefined`, which `join`
      writes as nothing. */
  function Initials(parts: seq<string>): (r: string)
    ensures |r| == |Filter(parts, NonEmpty)|
    ensures forall k :: 0 <= k < |r| ==> Filter(parts, NonEmpty)[k] != "" && r[k] == Filter(parts, NonEmpty)[k][0]
  {
    if parts == [] then ""
    else
      var rest := Initials(parts[1..]);
      (if parts[0] == "" then "" else [parts[0][0]]) + rest
  }

  /** `getInitials`: one upper-cased character for each non-empty part between single
      spaces, in order. */
  function GetInitials(name: string): (r: string)
    ensures |r| == Count(Split(name, ' '), NonEmpty)
    ensures forall k :: 0 <= k < |r| ==>
              Filter(Split(name, ' '), NonEmpty)[k] != "" && r[k] == Upper(Filter(Split(name, ' '), NonEmpty)[k][0])
  {
    UpperStr(Initials(Split(name, ' ')))
  }

  /** A name made of words joined by single spaces has one initial per word: the
      upper-cased first letter of each. */
  lemma InitialsOfWords(words: seq<string>)
    requires |words| >= 1
    requires forall k :: 0 <= k < |words| ==> words[k] != "" && ' ' !in words[k]
    ensures |GetInitials(Join(words, ' '))| == |words|
    ensures forall k :: 0 <= k < |words| ==> GetInitials(Join(words, ' '))[k] == Upper(words[k][0])
  {
    SplitJoinRoundTrip(words, ' ');
    FilterAll(words, NonEmpty);
  }

  // ---------------------------------------------------------------------------
  // truncate and truncateText

  /** `truncate`: `str.substring(0, length) + "..."` when longer than `length`;
      `substring` treats a negative end as 0. */
  function Truncate(str: string, length: int): (r: string)
    ensures |str| <= length ==> r == str
    ensures |str| > length >= 0 ==> r == str[..length] + "..." && |r| == length + 3
    ensures length < 0 ==> r == "..."
  {
    if |str| > length then str[..if length < 0 then 0 else length] + "..." else str
  }

  /** `truncateText`: `text.slice(0, maxLength) + "..."` when longer than `maxLength`. */
  function TruncateText(text: string, maxLength: int): (r: string)
    ensures |text| <= maxLength ==> r == text
    ensures |text| > maxLength >= 0 ==> r == text[..maxLength] + "..."
  {
    if |text| <= maxLength then text else JsSlice(text, 0, maxLength) + "..."
  }

  /** The two truncations agree on every limit that is not negative. */
  lemma TruncationsAgree(s: string, limit: int)
    requires limit >= 0
    ensures Truncate(s, limit) == TruncateText(s, limit)
  {
  }

  /** On a negative limit they part: `slice` counts a negative end from the back,
      `substring` takes it as 0. So a text longer than the limit counted from the back
      keeps its head in `truncateText` and loses it in `truncate`. */
  lemma TruncationsDifferBelowZero(s: string, limit: int)
    requires limit < 0 < |s| + limit
    ensures Truncate(s, limit) == "..."
    ensures TruncateText(s, limit) == s[..|s| + limit] + "..."
    ensures Truncate(s, limit) != TruncateText(s, limit)
  {
    assert JsSlice(s, 0, limit) == s[..|s| + limit];
  }

  // ---------------------------------------------------------------------------
  // the replace steps of the slug builders

  /** `.replace(/\s+/g, with)`: every run of white space becomes one `with` (written
      where the run ends). */
  function ReplaceSpaceRuns(s: string, with: char): (r: string)
    ensures forall c :: c in r ==> c in s || c == with
    ensures forall c :: c in r ==> !IsSpace(c) || c == with
  {
    if s == [] then []
    else if IsSpace(s[0]) && |s| > 1 && IsSpace(s[1]) then ReplaceSpaceRuns(s[1..], with)
    else [if IsSpace(s[0]) then with else s[0]] + ReplaceSpaceRuns(s[1..], with)
  }

  /** A string without white space is left as it is. */
  lemma {:induction false} ReplaceSpaceRunsNone(s: string, with: char)
    requires forall c :: c in s ==> !IsSpace(c)
    ensures ReplaceSpaceRuns(s, with) == s
  {
    if s != [] {
      assert s[0] in s;
      assert forall c :: c in s[1..] ==> c in s;
      ReplaceSpaceRunsNone(s[1..], with);
      assert [s[0]] + s[1..] == s;
    }
  }

  /** Drops the leading dashes. */
  function TrimDashStart(s: string): (r: string)
    ensures |r| <= |s| && r == s[|s| - |r|..]
    ensures r == [] || r[0] != '-'
    ensures s == [] || s[0] != '-' ==> r == s
  {
    if s != [] && s[0] == '-' then TrimDashStart(s[1..]) else s
  }

  /** Drops the trailing dashes. */
  function TrimDashEnd(s: string): (r: string)
    ensures |r| <= |s| && r == s[..|r|]
    ensures r == [] || r[|r| - 1] != '-'
    ensures s == [] || s[|s| - 1] != '-' ==> r == s
  {
    if s != [] && s[|s| - 1] == '-' then TrimDashEnd(s[..|s| - 1]) else s
  }

  /** `.replace(/-+/g, "-")`, and equally `.replace(/--+/g, "-")`: every run of dashes
      becomes one dash. */
  function CollapseDashes(s: string): (r: string)
    ensures forall c :: c in r ==> c in s
    ensures s != [] ==> r != [] && r[0] == s[0]
  {
    if |s| <= 1 then s
    else if s[0] == '-' && s[1] == '-' then CollapseDashes(s[1..])
    else [s[0]] + CollapseDashes(s[1..])
  }

  /** No run of two dashes survives, and a string without one is left as it is. */
  lemma {:induction false} CollapseDashesShape(s: string)
    ensures NoDoubleDash(CollapseDashes(s))
    ensures NoDoubleDash(s) ==> CollapseDashes(s) == s
  {
    if |s| > 1 {
      CollapseDashesShape(s[1..]);
      if NoDoubleDash(s) {
        assert NoDoubleDash(s[1..]) by {
          forall i | 0 <= i < |s[1..]| - 1 ensures !(s[1..][i] == '-' && s[1..][i + 1] == '-') {
            assert s[1..][i] == s[i + 1] && s[1..][i + 1] == s[i + 2];
          }
        }
        assert [s[0]] + s[1..] == s;
      }
    }
  }

  /** Cutting a run off either end keeps the "no two dashes in a row" property. */
  lemma NoDoubleDashSlice(s: string, a: nat, b: nat)
    requires a <= b <= |s| && NoDoubleDash(s)
    ensures NoDoubleDash(s[a..b])
  {
    forall i | 0 <= i < b - a - 1 ensures !(s[a..b][i] == '-' && s[a..b][i + 1] == '-') {
      assert s[a..b][i] == s[a + i] && s[a..b][i + 1] == s[a + i + 1];
    }
  }

  // ---------------------------------------------------------------------------
  // slugify

  predicate KeepForSlugify(c: char) { IsWordChar(c) || c == '-' }

  /** `slugify`: lower-case, white-space runs to dashes, drop everything but `\w` and
      dashes, collapse dash runs, trim dashes at both ends. */
  function Slugify(text: string): (r: string)
    ensures forall c :: c in r ==> IsSlugChar(c)
    ensures NoDoubleDash(r)
    ensures r == [] || (r[0] != '-' && r[|r| - 1] != '-')
  {
    var kept := Filter(ReplaceSpaceRuns(LowerStr(text), '-'), KeepForSlugify);
    KeptForSlugify(text);
    CollapseDashesShape(kept);
    TrimDashesShape(CollapseDashes(kept));
    TrimDashEnd(TrimDashStart(CollapseDashes(kept)))
  }

  /** Trimming dashes at both ends of a string of slug characters without two dashes in
      a row gives such a string that neither starts nor ends with a dash. */
  lemma TrimDashesShape(s: string)
    requires forall c :: c in s ==> IsSlugChar(c)
    requires NoDoubleDash(s)
    ensures var r := TrimDashEnd(TrimDashStart(s));
      && (forall c :: c in r ==> IsSlugChar(c))
      && NoDoubleDash(r)
      && (r == [] || (r[0] != '-' && r[|r| - 1] != '-'))
  {
    var front := TrimDashStart(s);
    var r := TrimDashEnd(front);
    NoDoubleDashSlice(s, |s| - |front|, |s|);
    NoDoubleDashSlice(front, 0, |r|);
    SlugCharsSlice(s, |s| - |front|, |s|);
    SlugCharsSlice(front, 0, |r|);
  }

  lemma SlugCharsSlice(s: string, a: nat, b: nat)
    requires a <= b <= |s|
    requires forall c :: c in s ==> IsSlugChar(c)
    ensures forall c :: c in s[a..b] ==> IsSlugChar(c)
  {
    forall c | c in s[a..b] ensures IsSlugChar(c) {
      var i :| a <= i < b && s[i] == c;
    }
  }

  /** What survives the first three steps of `slugify` is a slug character. */
  lemma KeptForSlugify(text: string)
    ensures forall c :: c in Filter(ReplaceSpaceRuns(LowerStr(text), '-'), KeepForSlugify) ==> IsSlugChar(c)
  {
    var lowered := LowerStr(text);
    var dashed := ReplaceSpaceRuns(lowered, '-');
    FilterMembers(dashed, KeepForSlugify);
    forall c | c in dashed && c != '-' ensures !IsUpper(c) {
      assert c in lowered;
      var i :| 0 <= i < |lowered| && lowered[i] == c;
    }
  }

  /** A slug is its own slug. */
  lemma SlugifyIdempotent(text: string)
    ensures Slugify(Slugify(text)) == Slugify(text)
  {
    SlugFixed(Slugify(text));
  }

  /** Every step of `slugify` leaves a slug as it is. */
  lemma SlugFixed(s: string)
    requires forall c :: c in s ==> IsSlugChar(c)
    requires NoDoubleDash(s)
    requires s == [] || (s[0] != '-' && s[|s| - 1] != '-')
    ensures Slugify(s) == s
  {
    LowerSlug(s);
    ReplaceSpaceRunsNone(s, '-');
    FilterAll(s, KeepForSlugify);
    CollapseDashesShape(s);
    calc {
      Slugify(s);
      TrimDashEnd(TrimDashStart(CollapseDashes(Filter(ReplaceSpaceRuns(LowerStr(s), '-'), KeepForSlugify))));
      TrimDashEnd(TrimDashStart(CollapseDashes(Filter(s, KeepForSlugify))));
      TrimDashEnd(TrimDashStart(s));
      s;
    }
  }

  lemma LowerSlug(s: string)
    requires forall c :: c in s ==> IsSlugChar(c)
    ensures LowerStr(s) == s
  {
    forall i | 0 <= i < |s| ensures LowerStr(s)[i] == s[i] {
      assert s[i] in s;
    }
  }

  // ---------------------------------------------------------------------------
  // generateSlug

  /** What the first `replace` of `generateSlug` keeps: lower-case ASCII letters,
      digits, the Arabic block U+0600 to U+06FF, white space and dashes. */
  predicate KeepForGenerateSlug(c: char)
  {
    'a' <= c <= 'z' || '0' <= c <= '9' || '؀' <= c <= 'ۿ' || IsSpace(c) || c == '-'
  }

  /** `generateSlug`. Its final `trim` removes white space only; dashes at the ends
      stay. */
  function GenerateSlug(str: string): (r: string)
    ensures forall c :: c in r ==> !IsSpace(c) && KeepForGenerateSlug(c)
    ensures NoDoubleDash(r)
  {
    var dashed := ReplaceSpaceRuns(Filter(LowerStr(str), KeepForGenerateSlug), '-');
    GeneratedChars(str);
    CollapseDashesShape(dashed);
    TrimNoSpace(CollapseDashes(dashed));
    Trim(CollapseDashes(dashed))
  }

  /** The final `trim` of `generateSlug` has nothing to remove. */
  lemma GenerateSlugUntrimmed(str: string) returns (g: string)
    ensures g == CollapseDashes(ReplaceSpaceRuns(Filter(LowerStr(str), KeepForGenerateSlug), '-'))
    ensures GenerateSlug(str) == g
  {
    g := CollapseDashes(ReplaceSpaceRuns(Filter(LowerStr(str), KeepForGenerateSlug), '-'));
    GeneratedChars(str);
    TrimNoSpace(g);
  }


  /** Before the final `trim`, a generated slug is already free of white space. */
  lemma GeneratedChars(str: string)
    ensures forall c :: c in CollapseDashes(ReplaceSpaceRuns(Filter(LowerStr(str), KeepForGenerateSlug), '-'))
                        ==> !IsSpace(c) && KeepForGenerateSlug(c)
  {
    var kept := Filter(LowerStr(str), KeepForGenerateSlug);
    FilterMembers(LowerStr(str), KeepForGenerateSlug);
    var dashed := ReplaceSpaceRuns(kept, '-');
    forall c | c in CollapseDashes(dashed) ensures !IsSpace(c) && KeepForGenerateSlug(c) {
      assert c in dashed;
      if c != '-' {
        assert c in kept;
      }
    }
  }

  /** `trim` leaves a string without white space as it is. */
  lemma TrimNoSpace(s: string)
    requires forall c :: c in s ==> !IsSpace(c)
    ensures Trim(s) == s
  {
    if s != [] {
      assert s[0] in s;
      assert s[|s| - 1] in s;
    }
  }

  /** Unlike `slugify`, a leading blank leaves a leading dash. */
  lemma GenerateSlugKeepsEdgeDash()
    ensures GenerateSlug(" a") == "-a"
    ensures Slugify(" a") == "a"
  {
    GenerateSlugOfBlankA();
    SlugifyOfBlankA();
  }

  lemma GenerateSlugOfBlankA()
    ensures GenerateSlug(" a") == "-a"
  {
    calc {
      GenerateSlug(" a");
      Trim(CollapseDashes(ReplaceSpaceRuns(Filter(LowerStr(" a"), KeepForGenerateSlug), '-')));
      { LowerBlankA(); FilterBlankA(); }
      Trim(CollapseDashes(ReplaceSpaceRuns(" a", '-')));
      { ReplaceBlankA(); CollapseDashA(); }
      Trim("-a");
      { TrimDashA(); }
      "-a";
    }
  }

  lemma SlugifyOfBlankA()
    ensures Slugify(" a") == "a"
  {
    calc {
      Slugify(" a");
      TrimDashEnd(TrimDashStart(CollapseDashes(Filter(ReplaceSpaceRuns(LowerStr(" a"), '-'), KeepForSlugify))));
      { LowerBlankA(); ReplaceBlankA(); }
      TrimDashEnd(TrimDashStart(CollapseDashes(Filter("-a", KeepForSlugify))));
      { FilterDashA(); CollapseDashA(); }
      TrimDashEnd(TrimDashStart("-a"));
      { assert "-a"[1..] == "a"; }
      TrimDashEnd("a");
      "a";
    }
  }

  lemma LowerBlankA()
    ensures LowerStr(" a") == " a"
  {
    assert LowerStr(" a")[0] == ' ' && LowerStr(" a")[1] == 'a';
  }

  lemma FilterBlankA()
    ensures Filter(" a", KeepForGenerateSlug) == " a"
  {
    assert " a"[1..] == "a" && "a"[1..] == [];
  }

  lemma FilterDashA()
    ensures Filter("-a", KeepForSlugify) == "-a"
  {
    assert "-a"[1..] == "a" && "a"[1..] == [];
  }

  lemma ReplaceBlankA()
    ensures ReplaceSpaceRuns(" a", '-') == "-a"
  {
    assert " a"[1..] == "a" && "a"[1..] == [];
    assert ReplaceSpaceRuns("a", '-') == "a";
  }

  lemma CollapseDashA()
    ensures CollapseDashes("-a") == "-a"
  {
    assert "-a"[1..] == "a";
    assert CollapseDashes("a") == "a";
  }

  lemma TrimDashA()
    ensures Trim("-a") == "-a"
  {
    assert forall c :: c in "-a" ==> c == '-' || c == 'a';
    TrimNoSpace("-a");
  }

  // ---------------------------------------------------------------------------
  // calculateReadingTime

  const WordsPerMinute: nat := 200

  /** `s.split(/\s+/)`: the pieces between runs of white space; a leading or trailing
      run gives an empty piece, and the empty string gives one empty piece. */
  function SplitSpaces(s: string): (r: seq<string>)
    ensures |r| >= 1
    ensures forall k, c :: 0 <= k < |r| && c in r[k] ==> !IsSpace(c)
    decreases |s|
  {
    if s == [] then [""]
    else if IsSpace(s[0]) then
      assert TrimStart(s) == TrimStart(s[1..]);
      [""] + SplitSpaces(TrimStart(s))
    else
      var rest := SplitSpaces(s[1..]);
      [[s[0]] + rest[0]] + rest[1..]
  }

  /** A word: no white space in it. */
  predicate NoSpace(w: string) { forall c :: c in w ==> !IsSpace(c) }

  lemma {:induction false} SplitSpacesWord(w: string)
    requires forall c :: c in w ==> !IsSpace(c)
    ensures SplitSpaces(w) == [w]
  {
    if w != [] {
      assert forall c :: c in w[1..] ==> c in w;
      SplitSpacesWord(w[1..]);
      assert [w[0]] + w[1..] == w;
    }
  }

  lemma {:induction false} SplitSpacesAt(w: string, rest: string)
    requires forall c :: c in w ==> !IsSpace(c)
    requires rest != [] && !IsSpace(rest[0])
    ensures SplitSpaces(w + " " + rest) == [w] + SplitSpaces(rest)
  {
    if w == [] {
      assert w + " " + rest == " " + rest;
      SplitSpacesBlank(rest);
    } else {
      var tail := w[1..] + " " + rest;
      assert forall c :: c in w[1..] ==> c in w;
      SplitSpacesAt(w[1..], rest);
      assert w + " " + rest == [w[0]] + tail;
      SplitSpacesCons(w[0], tail);
      assert [w[0]] + w[1..] == w;
    }
  }

  lemma SplitSpacesBlank(rest: string)
    requires rest != [] && !IsSpace(rest[0])
    ensures SplitSpaces(" " + rest) == [""] + SplitSpaces(rest)
  {
    assert (" " + rest)[1..] == rest;
    assert TrimStart(" " + rest) == TrimStart(rest);
  }

  lemma SplitSpacesCons(c: char, s: string)
    requires !IsSpace(c)
    ensures SplitSpaces([c] + s) == [[c] + SplitSpaces(s)[0]] + SplitSpaces(s)[1..]
  {
    assert ([c] + s)[1..] == s;
  }

  /** Splitting words joined by single spaces gives back the words. */
  lemma {:induction false} SplitSpacesJoin(words: seq<string>)
    requires |words| >= 1
    requires forall k :: 0 <= k < |words| ==> words[k] != "" && NoSpace(words[k])
    ensures SplitSpaces(Join(words, ' ')) == words
  {
    if |words| == 1 {
      SplitSpacesWord(words[0]);
    } else {
      SplitSpacesJoin(words[1..]);
      JoinEnds(words[1..]);
      assert Join(words, ' ') == words[0] + " " + Join(words[1..], ' ');
      SplitSpacesAt(words[0], Join(words[1..], ' '));
    }
  }

  /** Words joined by single spaces start with the first word's first character and end
      with the last word's last character. */
  lemma {:induction false} JoinEnds(words: seq<string>)
    requires |words| >= 1
    requires forall k :: 0 <= k < |words| ==> words[k] != "" && NoSpace(words[k])
    ensures var j, first, last := Join(words, ' '), words[0], words[|words| - 1];
      first != [] && last != [] && j != [] && j[0] == first[0] && j[|j| - 1] == last[|last| - 1]
  {
    if |words| > 1 {
      JoinEnds(words[1..]);
      assert words[1..][|words| - 2] == words[|words| - 1];
    }
  }

  /** `calculateReadingTime`: whole minutes at 200 words a minute, rounded up; the empty
      text counts as one (empty) word. */
  function CalculateReadingTime(text: string): (r: nat)
    ensures r >= 1
  {
    CeilDiv(|SplitSpaces(Trim(text))|, WordsPerMinute)
  }

  /** A text of `n` words separated by single spaces takes `ceil(n / 200)` minutes. */
  lemma ReadingTimeOfWords(words: seq<string>)
    requires |words| >= 1
    requires forall k :: 0 <= k < |words| ==> words[k] != "" && NoSpace(words[k])
    ensures CalculateReadingTime(Join(words, ' ')) == CeilDiv(|words|, WordsPerMinute)
  {
    var j := Join(words, ' ');
    JoinEnds(words);
    assert words[0][0] in words[0];
    var last := words[|words| - 1];
    assert last[|last| - 1] in last;
    assert TrimStart(j) == j;
    assert TrimEnd(j) == j;
    SplitSpacesJoin(words);
  }

  // ---------------------------------------------------------------------------
  // groupBy

  function KeyIs<T>(key: T -> string, k: string): T -> bool
  {
    x => key(x) == k
  }

  /** The size of each group. */
  function Sizes<T>(groups: map<string, seq<T>>): (m: map<string, nat>)
    ensures m.Keys == groups.Keys
  {
    map k | k in groups :: |groups[k]|
  }

  /** The keys that occur. */
  function KeysOf<T>(items: seq<T>, key: T -> string): set<string>
  {
    set i | 0 <= i < |items| :: key(items[i])
  }

  /** The groups of a prefix: each present key holds its elements in order, and every
      other key has none. */
  ghost predicate GroupsOf<T(!new)>(groups: map<string, seq<T>>, items: seq<T>, key: T -> string)
  {
    && groups.Keys == KeysOf(items, key)
    && (forall k :: k in groups ==> groups[k] == Filter(items, KeyIs(key, k)))
    && (forall k :: k !in groups ==> Filter(items, KeyIs(key, k)) == [])
  }

  lemma KeysOfAppend<T>(items: seq<T>, x: T, key: T -> string)
    ensures KeysOf(items + [x], key) == KeysOf(items, key) + {key(x)}
  {
    forall k ensures k in KeysOf(items + [x], key) <==> k in KeysOf(items, key) + {key(x)} {
      if k in KeysOf(items, key) {
        var i :| 0 <= i < |items| && key(items[i]) == k;
        assert (items + [x])[i] == items[i];
      }
      assert (items + [x])[|items|] == x;
    }
  }

  lemma FilterKeyAppend<T(!new)>(items: seq<T>, x: T, key: T -> string)
    ensures forall k :: Filter(items + [x], KeyIs(key, k)) == Filter(items, KeyIs(key, k)) + (if key(x) == k then [x] else [])
  {
    forall k ensures Filter(items + [x], KeyIs(key, k)) == Filter(items, KeyIs(key, k)) + (if key(x) == k then [x] else []) {
      FilterAppend(items, [x], KeyIs(key, k));
    }
  }

  lemma SizesPush<T>(groups: map<string, seq<T>>, g: string, x: T)
    ensures MapSum(Sizes(groups[g := (if g in groups then groups[g] else []) + [x]])) == MapSum(Sizes(groups)) + 1
  {
    var sizes := Sizes(groups);
    MapSumIncrement(sizes, g);
    assert Sizes(groups[g := (if g in groups then groups[g] else []) + [x]]) == sizes[g := (if g in sizes then sizes[g] else 0) + 1];
  }

  /** `(result[g] = result[g] || []).push(x)` keeps the groups right for one more
      element. */
  lemma GroupStep<T(!new)>(groups: map<string, seq<T>>, items: seq<T>, x: T, key: T -> string)
    requires GroupsOf(groups, items, key)
    ensures GroupsOf(groups[key(x) := (if key(x) in groups then groups[key(x)] else []) + [x]], items + [x], key)
  {
    KeysOfAppend(items, x, key);
    FilterKeyAppend(items, x, key);
  }

  lemma GroupStepAt<T(!new)>(groups: map<string, seq<T>>, items: seq<T>, i: int, key: T -> string)
    requires 0 <= i < |items| && GroupsOf(groups, items[..i], key)
    ensures var x := items[i];
      GroupsOf(groups[key(x) := (if key(x) in groups then groups[key(x)] else []) + [x]], items[..i + 1], key)
  {
    assert items[..i + 1] == items[..i] + [items[i]];
    GroupStep(groups, items[..i], items[i], key);
  }

  /** `groupBy`, with `key` standing for `String(x[key])`: each element is pushed onto
      the group of its key, so each group holds the elements with that key in their
      original order, only keys that occur have a group, and the groups together hold
      every element once. */
  method GroupBy<T(!new)>(items: seq<T>, key: T -> string) returns (result: map<string, seq<T>>)
    ensures forall k :: k in result <==> exists i :: 0 <= i < |items| && key(items[i]) == k
    ensures forall k :: k in result ==> result[k] == Filter(items, KeyIs(key, k))
    ensures MapSum(Sizes(result)) == |items|
  {
    result := map[];
    assert items[..0] == [];
    for i := 0 to |items|
      invariant GroupsOf(result, items[..i], key)
      invariant MapSum(Sizes(result)) == i
    {
      var x := items[i];
      var g := key(x);
      GroupStepAt(result, items, i, key);
      SizesPush(result, g, x);
      result := result[g := (if g in result then result[g] else []) + [x]];
    }
    assert items[..|items|] == items;
    GroupsOfKeys(result, items, key);
  }

  lemma GroupsOfKeys<T(!new)>(groups: map<string, seq<T>>, items: seq<T>, key: T -> string)
    requires GroupsOf(groups, items, key)
    ensures forall k :: k in groups <==> exists i :: 0 <= i < |items| && key(items[i]) == k
  {
  }

  // ---------------------------------------------------------------------------
  // level labels and colours

  predicate IsLevel(level: string) { level == "beginner" || level == "intermediate" || level == "advanced" }

  /** `getLevelText`: the Persian name of a level, anything else as it is. */
  function LevelText(level: string): (r: string)
    ensures r != level <==> IsLevel(level)
  {
    match level
    case "beginner" => "مبتدی"
    case "intermediate" => "متوسط"
    case "advanced" => "پیشرفته"
    case _ => level
  }

  const GrayColor: string := "bg-gray-100 text-gray-800 border-gray-300"

  /** `getWordDifficultyColor`: green, blue and purple for the three levels, gray for
      anything else. */
  function DifficultyColor(level: string): (r: string)
    ensures r == GrayColor <==> !IsLevel(level)
  {
    match level
    case "beginner" => "bg-green-100 text-green-800 border-green-300"
    case "intermediate" => "bg-blue-100 text-blue-800 border-blue-300"
    case "advanced" => "bg-purple-100 text-purple-800 border-purple-300"
    case _ => GrayColor
  }

  /** The three levels get different names and different colours. */
  lemma LevelLabels(level: string, other: string)
    ensures IsLevel(level) && IsLevel(other) && level != other ==>
              LevelText(level) != LevelText(other) && DifficultyColor(level) != DifficultyColor(other)
  {
  }
}
