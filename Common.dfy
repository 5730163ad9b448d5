/**
  Shared vocabulary of the model.

  The application is written in TypeScript (plus one Python script); the pieces of the
  language runtime its logic leans on are defined here once: optional values, ceiling
  division, `Array.prototype.slice`, `filter`, counting and summing, ASCII lower-casing
  and `String.prototype.includes`, de-duplication through a `Set`, lexicographic string
  comparison (standing in for `localeCompare`) and the stable sort that
  `Array.prototype.sort` and Python's `sorted` both perform.
*/
module Common {

  datatype Option<T> = None | Some(value: T)

  // ---------------------------------------------------------------------------
  // Arithmetic

  /** `Math.ceil(a / b)` for a non-negative count and a positive page size. */
  function CeilDiv(a: nat, b: nat): (r: nat)
    requires b > 0
    ensures r * b >= a
    ensures r > 0 ==> (r - 1) * b < a
    ensures a == 0 <==> r == 0
  {
    var q := a / b;
    if a % b == 0 then q else q + 1
  }

  function Min(a: int, b: int): int { if a <= b then a else b }

  function Max(a: int, b: int): int { if a >= b then a else b }

  function Abs(a: int): nat { if a < 0 then -a else a }

  /** `Math.pow(2, k)` on whole exponents. */
  function Pow2(k: nat): (r: nat)
    ensures r >= 1
  {
    if k == 0 then 1 else 2 * Pow2(k - 1)
  }

  lemma {:induction false} Pow2Monotone(j: nat, k: nat)
    requires j <= k
    ensures Pow2(j) <= Pow2(k)
  {
    if j < k {
      Pow2Monotone(j, k - 1);
    }
  }

  // ---------------------------------------------------------------------------
  // Array.prototype.slice

  /** How `slice` normalises one index: negative indices count from the end, and both
      ends are clamped into 0..len. */
  function SliceIndex(i: int, len: nat): (r: nat)
    ensures r <= len
    ensures 0 <= i <= len ==> r == i
  {
    if i < 0 then (if len + i < 0 then 0 else len + i)
    else if i > len then len
    else i
  }

  function JsSlice<T>(s: seq<T>, start: int, end: int): (r: seq<T>)
    ensures |r| <= |s|
  {
    var b := SliceIndex(start, |s|);
    var e := SliceIndex(end, |s|);
    if b < e then s[b..e] else []
  }

  /** A window `slice(a, a + n)` never holds more than `n` entries, whatever `a` is. */
  lemma JsSliceWindow<T>(s: seq<T>, a: int, n: nat)
    ensures |JsSlice(s, a, a + n)| <= n
  {
  }

  /** A slice only holds entries of the sliced list. */
  lemma JsSliceMembers<T>(s: seq<T>, a: int, b: int)
    ensures forall x :: x in JsSlice(s, a, b) ==> x in s
  {
  }

  /** The page slice `s.slice((p - 1) * n, p * n)` of a pager holds at most `n`
      entries, and they are the entries of `s` from position `(p - 1) * n` on. */
  lemma PageSlice<T>(s: seq<T>, p: int, n: nat)
    requires p >= 1 && n >= 1
    ensures var r := JsSlice(s, (p - 1) * n, p * n);
      && |r| <= n
      && (forall k :: 0 <= k < |r| ==> (p - 1) * n + k < |s| && r[k] == s[(p - 1) * n + k])
      && ((p - 1) * n < |s| ==> |r| == Min(n, |s| - (p - 1) * n))
  {
    var lo := (p - 1) * n;
    assert lo >= 0 && p * n == lo + n by {
      assert p * n == (p - 1) * n + n;
    }
    SliceWindowAt(s, lo, n);
  }

  lemma SliceWindowAt<T>(s: seq<T>, lo: nat, n: nat)
    ensures var r := JsSlice(s, lo, lo + n);
      && |r| <= n
      && (forall k :: 0 <= k < |r| ==> lo + k < |s| && r[k] == s[lo + k])
      && (lo < |s| ==> |r| == Min(n, |s| - lo))
  {
  }

  // ---------------------------------------------------------------------------
  // filter, count, sum

  function Filter<T(!new)>(s: seq<T>, p: T -> bool): (r: seq<T>)
    ensures |r| <= |s|
  {
    if s == [] then []
    else (if p(s[0]) then [s[0]] else []) + Filter(s[1..], p)
  }

  lemma {:induction false} FilterAppend<T(!new)>(a: seq<T>, b: seq<T>, p: T -> bool)
    ensures Filter(a + b, p) == Filter(a, p) + Filter(b, p)
  {
    if a == [] {
      assert a + b == b;
    } else {
      assert (a + b)[0] == a[0];
      assert (a + b)[1..] == a[1..] + b;
      FilterAppend(a[1..], b, p);
      var h := if p(a[0]) then [a[0]] else [];
      assert Filter(a + b, p) == h + (Filter(a[1..], p) + Filter(b, p));
    }
  }

  /** Filtering keeps exactly the elements that pass, and only those. */
  lemma {:induction false} FilterMembers<T(!new)>(s: seq<T>, p: T -> bool)
    ensures forall x :: x in Filter(s, p) <==> x in s && p(x)
    ensures forall i :: 0 <= i < |Filter(s, p)| ==> p(Filter(s, p)[i])
  {
    if s != [] {
      FilterMembers(s[1..], p);
      assert s == [s[0]] + s[1..];
    }
  }

  /** Filtering keeps everything exactly when every element passes. */
  lemma {:induction false} FilterAll<T(!new)>(s: seq<T>, p: T -> bool)
    requires forall x :: x in s ==> p(x)
    ensures Filter(s, p) == s
  {
    if s != [] {
      FilterAll(s[1..], p);
    }
  }

  /** A filter that fails only at position `k` cuts out exactly that entry and keeps the
      rest in order. */
  lemma FilterDropsOne<T(!new)>(s: seq<T>, k: int, p: T -> bool)
    requires 0 <= k < |s| && !p(s[k])
    requires forall j :: 0 <= j < |s| && j != k ==> p(s[j])
    ensures Filter(s, p) == s[..k] + s[k + 1..]
  {
    var pre, post := s[..k], s[k + 1..];
    KeptAround(s, k, p);
    FilterSkip(pre, s[k], post, p);
    SplitAround(s, k);
  }

  lemma SplitAround<T>(s: seq<T>, k: int)
    requires 0 <= k < |s|
    ensures s == s[..k] + ([s[k]] + s[k + 1..])
  {
    assert s[k..] == [s[k]] + s[k + 1..];
    assert s == s[..k] + s[k..];
  }

  lemma FilterSkip<T(!new)>(pre: seq<T>, x: T, post: seq<T>, p: T -> bool)
    requires Filter(pre, p) == pre && Filter(post, p) == post && !p(x)
    ensures Filter(pre + ([x] + post), p) == pre + post
  {
    FilterAppend(pre, [x] + post, p);
    assert Filter([x] + post, p) == Filter(post, p) by {
      assert ([x] + post)[0] == x;
      assert ([x] + post)[1..] == post;
    }
  }

  lemma KeptAround<T(!new)>(s: seq<T>, k: int, p: T -> bool)
    requires 0 <= k < |s|
    requires forall j :: 0 <= j < |s| && j != k ==> p(s[j])
    ensures Filter(s[..k], p) == s[..k] && Filter(s[k + 1..], p) == s[k + 1..]
  {
    forall x | x in s[..k] ensures p(x) {
      var j :| 0 <= j < k && s[..k][j] == x;
      assert s[j] == x;
    }
    forall x | x in s[k + 1..] ensures p(x) {
      var j :| 0 <= j < |s| - k - 1 && s[k + 1..][j] == x;
      assert s[k + 1 + j] == x;
    }
    FilterAll(s[..k], p);
    FilterAll(s[k + 1..], p);
  }

  // ---------------------------------------------------------------------------
  // lists of records with a key: `list.filter(x => x.id !== id)`

  function RemoveKey<T(!new)>(s: seq<T>, key: T -> string, k: string): (r: seq<T>)
    ensures |r| <= |s|
    ensures forall x :: x in r <==> x in s && key(x) != k
  {
    FilterMembers(s, x => key(x) != k);
    Filter(s, x => key(x) != k)
  }

  /** Removing a key that no entry has changes nothing; removing a key twice is the same
      as removing it once; the list shrinks by the number of entries with that key. */
  lemma RemoveKeyProperties<T(!new)>(s: seq<T>, key: T -> string, k: string)
    ensures (forall j :: 0 <= j < |s| ==> key(s[j]) != k) ==> RemoveKey(s, key, k) == s
    ensures RemoveKey(RemoveKey(s, key, k), key, k) == RemoveKey(s, key, k)
    ensures |RemoveKey(s, key, k)| == |s| - Count(s, x => key(x) == k)
  {
    if forall j :: 0 <= j < |s| ==> key(s[j]) != k {
      FilterAll(s, x => key(x) != k);
    }
    FilterAll(RemoveKey(s, key, k), x => key(x) != k);
    CountComplement(s, x => key(x) != k, x => key(x) == k);
  }

  /** Removing a key from a concatenation removes it from each part. */
  lemma RemoveKeyAppend<T(!new)>(a: seq<T>, b: seq<T>, key: T -> string, k: string)
    ensures RemoveKey(a + b, key, k) == RemoveKey(a, key, k) + RemoveKey(b, key, k)
  {
    FilterAppend(a, b, x => key(x) != k);
  }

  /** Removing the key of the only entry that has it cuts out that entry and keeps the
      others in order. */
  lemma RemoveKeyCutsOne<T(!new)>(s: seq<T>, key: T -> string, i: int)
    requires 0 <= i < |s|
    requires forall j :: 0 <= j < |s| && j != i ==> key(s[j]) != key(s[i])
    ensures RemoveKey(s, key, key(s[i])) == s[..i] + s[i + 1..]
  {
    FilterDropsOne(s, i, x => key(x) != key(s[i]));
  }

  /** `list.map(x => x.id === k ? v : x)`. */
  function ReplaceKey<T>(s: seq<T>, key: T -> string, k: string, v: T): (r: seq<T>)
    ensures |r| == |s|
    ensures forall j :: 0 <= j < |s| ==> r[j] == if key(s[j]) == k then v else s[j]
  {
    seq(|s|, j requires 0 <= j < |s| => if key(s[j]) == k then v else s[j])
  }

  /** When exactly one entry has the key, replacing it is an update at that position, and
      a key no entry has leaves the list alone. */
  lemma ReplaceKeyProperties<T>(s: seq<T>, key: T -> string, i: int, v: T)
    requires 0 <= i < |s|
    requires forall j :: 0 <= j < |s| && j != i ==> key(s[j]) != key(s[i])
    ensures ReplaceKey(s, key, key(s[i]), v) == s[i := v]
  {
  }

  lemma ReplaceKeyAbsent<T>(s: seq<T>, key: T -> string, k: string, v: T)
    requires forall j :: 0 <= j < |s| ==> key(s[j]) != k
    ensures ReplaceKey(s, key, k, v) == s
  {
  }

  /** Two filters in a row keep what their conjunction keeps. */
  lemma {:induction false} FilterFilter<T(!new)>(s: seq<T>, p: T -> bool, q: T -> bool, pq: T -> bool)
    requires forall x :: pq(x) == (p(x) && q(x))
    ensures Filter(Filter(s, p), q) == Filter(s, pq)
  {
    if s != [] {
      FilterFilter(s[1..], p, q, pq);
      var h := if p(s[0]) then [s[0]] else [];
      assert Filter(s, p) == h + Filter(s[1..], p);
      FilterAppend(h, Filter(s[1..], p), q);
      assert Filter(h, q) == if pq(s[0]) then [s[0]] else [];
    }
  }

  /** Filters that agree on every element give the same list. */
  lemma {:induction false} FilterSame<T(!new)>(s: seq<T>, p: T -> bool, q: T -> bool)
    requires forall x :: x in s ==> p(x) == q(x)
    ensures Filter(s, p) == Filter(s, q)
  {
    if s != [] {
      FilterSame(s[1..], p, q);
    }
  }

  function Count<T(!new)>(s: seq<T>, p: T -> bool): (n: nat)
    ensures n <= |s|
    ensures n == |Filter(s, p)|
  {
    if s == [] then 0
    else (if p(s[0]) then 1 else 0) + Count(s[1..], p)
  }

  /** What a filter drops is what the opposite test counts. */
  lemma {:induction false} CountComplement<T(!new)>(s: seq<T>, p: T -> bool, q: T -> bool)
    requires forall x :: q(x) == !p(x)
    ensures |Filter(s, p)| == |s| - Count(s, q)
  {
    if s != [] {
      CountComplement(s[1..], p, q);
    }
  }

  /** A weaker test counts at least as many elements. */
  lemma {:induction false} CountMonotone<T(!new)>(s: seq<T>, p: T -> bool, q: T -> bool)
    requires forall x :: p(x) ==> q(x)
    ensures Count(s, p) <= Count(s, q)
  {
    if s != [] {
      CountMonotone(s[1..], p, q);
    }
  }

  lemma {:induction false} CountAppend<T(!new)>(a: seq<T>, b: seq<T>, p: T -> bool)
    ensures Count(a + b, p) == Count(a, p) + Count(b, p)
  {
    FilterAppend(a, b, p);
  }

  function Sum(s: seq<int>): int
  {
    if s == [] then 0 else s[0] + Sum(s[1..])
  }

  lemma {:induction false} SumAppend(a: seq<int>, b: seq<int>)
    ensures Sum(a + b) == Sum(a) + Sum(b)
  {
    if a == [] {
      assert a + b == b;
    } else {
      assert (a + b)[1..] == a[1..] + b;
      SumAppend(a[1..], b);
    }
  }

  lemma {:induction false} SumNonNegative(s: seq<int>)
    requires forall i :: 0 <= i < |s| ==> s[i] >= 0
    ensures Sum(s) >= 0
  {
    if s != [] {
      SumNonNegative(s[1..]);
    }
  }

  /** `s.find(p)`: the first element that passes, if any. */
  function Find<T>(s: seq<T>, p: T -> bool): (r: Option<T>)
    ensures r.None? <==> forall i :: 0 <= i < |s| ==> !p(s[i])
    ensures r.Some? ==> exists i :: 0 <= i < |s| && s[i] == r.value && p(s[i]) &&
                                   forall j :: 0 <= j < i ==> !p(s[j])
  {
    if |s| == 0 then None
    else if p(s[0]) then Some(s[0])
    else
      var r := Find(s[1..], p);
      assert forall i :: 1 <= i < |s| ==> s[i] == s[1..][i - 1];
      r
  }

  // ---------------------------------------------------------------------------
  // Maps of counts: a `Record<string, number>` accumulator

  /** The sum of the counts of a map. */
  ghost function MapSum<K>(m: map<K, nat>): nat
    decreases |m.Keys|
  {
    if m == map[] then 0
    else
      var k :| k in m;
      assert m.Keys == (m - {k}).Keys + {k};
      m[k] + MapSum(m - {k})
  }

  /** The sum does not depend on which key is taken out first. */
  lemma {:induction false} MapSumRemove<K>(m: map<K, nat>, k: K)
    requires k in m
    ensures MapSum(m) == m[k] + MapSum(m - {k})
    decreases |m.Keys|
  {
    var j :| j in m && MapSum(m) == m[j] + MapSum(m - {j});
    if j != k {
      assert m.Keys == (m - {j}).Keys + {j};
      assert m.Keys == (m - {k}).Keys + {k};
      MapSumRemove(m - {j}, k);
      MapSumRemove(m - {k}, j);
      assert m - {j} - {k} == m - {k} - {j};
    }
  }

  /** `acc[key] = (acc[key] || 0) + 1` adds one to the sum. */
  lemma MapSumIncrement<K>(m: map<K, nat>, k: K)
    ensures MapSum(m[k := (if k in m then m[k] else 0) + 1]) == MapSum(m) + 1
  {
    var m' := m[k := (if k in m then m[k] else 0) + 1];
    MapSumRemove(m', k);
    assert m' - {k} == m - {k};
    if k in m {
      MapSumRemove(m, k);
    } else {
      assert m - {k} == m;
    }
  }

  // ---------------------------------------------------------------------------
  // Strings

  /** `toLowerCase` on the ASCII letters; every other character is left as it is. */
  function Lower(c: char): char
  {
    if 'A' <= c <= 'Z' then (c as int + 32) as char else c
  }

  function LowerStr(s: string): (r: string)
    ensures |r| == |s|
  {
    seq(|s|, i requires 0 <= i < |s| => Lower(s[i]))
  }

  lemma LowerStrIdempotent(s: string)
    ensures LowerStr(LowerStr(s)) == LowerStr(s)
  {
    forall i | 0 <= i < |s|
      ensures LowerStr(LowerStr(s))[i] == LowerStr(s)[i]
    {
      assert !('A' <= LowerStr(s)[i] <= 'Z');
    }
  }

  /** `String.prototype.includes`: does `needle` occur in `hay` as a contiguous run? */
  predicate Includes(hay: string, needle: string)
  {
    needle <= hay || (|hay| > 0 && Includes(hay[1..], needle))
  }

  /** `needle` occurs in `hay` starting at position `i`. */
  predicate OccursAt(hay: string, needle: string, i: int)
  {
    0 <= i <= |hay| - |needle| && hay[i..i + |needle|] == needle
  }

  /** `Includes` agrees with the definition by position. */
  lemma {:induction false} IncludesIff(hay: string, needle: string)
    ensures Includes(hay, needle) <==> exists i :: OccursAt(hay, needle, i)
  {
    if needle <= hay {
      assert OccursAt(hay, needle, 0);
    } else if |hay| == 0 {
      assert forall i :: !OccursAt(hay, needle, i);
    } else {
      IncludesIff(hay[1..], needle);
      if Includes(hay[1..], needle) {
        var j :| OccursAt(hay[1..], needle, j);
        assert hay[j + 1..j + 1 + |needle|] == hay[1..][j..j + |needle|];
        assert OccursAt(hay, needle, j + 1);
      }
      forall i | OccursAt(hay, needle, i) ensures Includes(hay[1..], needle) {
        assert i != 0;
        assert hay[1..][i - 1..i - 1 + |needle|] == hay[i..i + |needle|];
        assert OccursAt(hay[1..], needle, i - 1);
      }
    }
  }

  /** `hay.indexOf(needle, from)`: the first position at or after `from` where `needle`
      occurs, or -1. */
  function IndexFrom(hay: string, needle: string, from: nat): (r: int)
    ensures r == -1 || (from <= r && OccursAt(hay, needle, r))
    ensures forall i :: from <= i && (r == -1 || i < r) ==> !OccursAt(hay, needle, i)
    decreases |hay| - from
  {
    if from + |needle| > |hay| then -1
    else if hay[from..from + |needle|] == needle then from
    else IndexFrom(hay, needle, from + 1)
  }

  /** `hay.indexOf(needle)`: the first position where `needle` occurs, or -1 when it
      does not occur at all. */
  function IndexOf(hay: string, needle: string): (r: int)
    ensures r == -1 <==> !Includes(hay, needle)
    ensures r >= 0 ==> OccursAt(hay, needle, r) && forall i :: 0 <= i < r ==> !OccursAt(hay, needle, i)
  {
    IncludesIff(hay, needle);
    IndexFrom(hay, needle, 0)
  }

  /** The empty query is contained in every string. */
  lemma IncludesEmpty(hay: string)
    ensures Includes(hay, "")
  {
  }

  /** `hay.toLowerCase().includes(q.toLowerCase())`. */
  predicate IncludesIgnoreCase(hay: string, q: string)
  {
    Includes(LowerStr(hay), LowerStr(q))
  }

  /** Decimal digits and `n.toString()` for natural numbers. */
  function DigitChar(d: nat): (c: char)
    requires d < 10
    ensures '0' <= c <= '9'
  {
    ('0' as int + d) as char
  }

  function DigitValue(c: char): int { c as int - '0' as int }

  function NatStr(n: nat): (r: string)
    ensures |r| >= 1
    ensures forall i :: 0 <= i < |r| ==> '0' <= r[i] <= '9'
  {
    if n < 10 then [DigitChar(n)] else NatStr(n / 10) + [DigitChar(n % 10)]
  }

  /** Reading a string of decimal digits. */
  function ParseNat(s: string): int
  {
    if |s| == 0 then 0 else 10 * ParseNat(s[..|s| - 1]) + DigitValue(s[|s| - 1])
  }

  /** `toString` is read back as the same number, and it has no leading zero. */
  lemma {:induction false} NatStrRoundTrip(n: nat)
    ensures ParseNat(NatStr(n)) == n
    ensures |NatStr(n)| > 1 ==> NatStr(n)[0] != '0'
  {
    if n >= 10 {
      NatStrRoundTrip(n / 10);
      var r := NatStr(n);
      assert r[..|r| - 1] == NatStr(n / 10);
    }
  }

  /** `n.toString().padStart(2, "0")` for `n < 100`. */
  function Pad2(n: nat): (r: string)
    requires n < 100
    ensures |r| == 2 && ParseNat(r) == n
  {
    var r := [DigitChar(n / 10), DigitChar(n % 10)];
    assert r[..1] == [DigitChar(n / 10)];
    assert r[..1][..0] == [];
    assert ParseNat(r[..1]) == n / 10;
    r
  }

  /** `padStart(2, "0")` only adds a zero in front of a one-digit number. */
  lemma Pad2IsPadded(n: nat)
    requires n < 100
    ensures Pad2(n) == if n < 10 then "0" + NatStr(n) else NatStr(n)
  {
    if n >= 10 {
      assert NatStr(n / 10) == [DigitChar(n / 10)];
    }
  }

  /** `parts.join(sep)` for a one-character separator. */
  function Join(parts: seq<string>, sep: char): string
  {
    if |parts| == 0 then ""
    else if |parts| == 1 then parts[0]
    else parts[0] + [sep] + Join(parts[1..], sep)
  }

  /** `s.split(sep)` for a one-character separator: the pieces between separators,
      always at least one. */
  function Split(s: string, sep: char): (r: seq<string>)
    ensures |r| >= 1
    ensures forall k :: 0 <= k < |r| ==> sep !in r[k]
  {
    if s == [] then [""]
    else if s[0] == sep then [""] + Split(s[1..], sep)
    else
      var rest := Split(s[1..], sep);
      assert forall k :: 1 <= k < |rest| ==> sep !in rest[k];
      [[s[0]] + rest[0]] + rest[1..]
  }

  /** Joining the pieces of a split gives back the string. */
  lemma {:induction false} JoinSplitRoundTrip(s: string, sep: char)
    ensures Join(Split(s, sep), sep) == s
  {
    if s != [] {
      JoinSplitRoundTrip(s[1..], sep);
      var rest := Split(s[1..], sep);
      if s[0] == sep {
        assert ([""] + rest)[1..] == rest;
      } else {
        var r := [[s[0]] + rest[0]] + rest[1..];
        assert r[1..] == rest[1..];
        assert [s[0]] + s[1..] == s;
      }
    }
  }

  lemma {:induction false} SplitNoSep(a: string, sep: char)
    requires sep !in a
    ensures Split(a, sep) == [a]
  {
    if a != [] {
      assert a[0] != sep && sep !in a[1..];
      SplitNoSep(a[1..], sep);
      assert [a[0]] + a[1..] == a;
    }
  }

  lemma {:induction false} SplitAtSep(a: string, b: string, sep: char)
    requires sep !in a
    ensures Split(a + [sep] + b, sep) == [a] + Split(b, sep)
  {
    if a == [] {
      assert a + [sep] + b == [sep] + b;
      assert ([sep] + b)[1..] == b;
    } else {
      assert a[0] != sep && sep !in a[1..];
      SplitAtSep(a[1..], b, sep);
      assert (a + [sep] + b)[0] == a[0];
      assert (a + [sep] + b)[1..] == a[1..] + [sep] + b;
      assert [a[0]] + a[1..] == a;
    }
  }

  /** Splitting a join of pieces without the separator gives back the pieces. */
  lemma {:induction false} SplitJoinRoundTrip(parts: seq<string>, sep: char)
    requires |parts| >= 1
    requires forall k :: 0 <= k < |parts| ==> sep !in parts[k]
    ensures Split(Join(parts, sep), sep) == parts
  {
    if |parts| == 1 {
      SplitNoSep(parts[0], sep);
    } else {
      SplitJoinRoundTrip(parts[1..], sep);
      SplitAtSep(parts[0], Join(parts[1..], sep), sep);
    }
  }

  /** White space as JavaScript's `\s` and `trim` know it: tab, line feed, vertical tab,
      form feed, carriage return, space, no-break space, the Unicode space separators,
      the line and paragraph separators and the byte order mark. */
  predicate IsSpace(c: char)
  {
    || c == '\t' || c == '\n' || c == '\U{000B}' || c == '\U{000C}' || c == '\r' || c == ' '
    || c == '\U{00A0}' || c == '\U{1680}' || '\U{2000}' <= c <= '\U{200A}'
    || c == '\U{2028}' || c == '\U{2029}' || c == '\U{202F}' || c == '\U{205F}'
    || c == '\U{3000}' || c == '\U{FEFF}'
  }

  function TrimStart(s: string): (r: string)
    ensures |r| <= |s| && r == s[|s| - |r|..]
    ensures r == [] || !IsSpace(r[0])
  {
    if s != [] && IsSpace(s[0]) then TrimStart(s[1..]) else s
  }

  function TrimEnd(s: string): (r: string)
    ensures |r| <= |s| && r == s[..|r|]
    ensures r == [] || !IsSpace(r[|r| - 1])
  {
    if s != [] && IsSpace(s[|s| - 1]) then TrimEnd(s[..|s| - 1]) else s
  }

  function Trim(s: string): string { TrimEnd(TrimStart(s)) }

  /** `Array.from(new Set(s))`: the distinct elements in order of first occurrence. */
  function Distinct<T(==,!new)>(s: seq<T>): (r: seq<T>)
    ensures forall x :: x in r <==> x in s
    ensures forall i, j :: 0 <= i < j < |r| ==> r[i] != r[j]
    ensures |r| <= |s|
  {
    if s == [] then []
    else
      var rest := Distinct(s[..|s| - 1]);
      if s[|s| - 1] in rest then rest else rest + [s[|s| - 1]]
  }

  // ---------------------------------------------------------------------------
  // Ordering and the stable sort

  /** A comparator usable by a sort: total and transitive. */
  ghost predicate TotalPreorder<T(!new)>(le: (T, T) -> bool)
  {
    && (forall a, b :: le(a, b) || le(b, a))
    && (forall a, b, c :: le(a, b) && le(b, c) ==> le(a, c))
  }

  ghost predicate SortedBy<T>(s: seq<T>, le: (T, T) -> bool)
  {
    forall i, j :: 0 <= i < j < |s| ==> le(s[i], s[j])
  }

  /** Inserts `x` after every element that may precede it, so that equal elements keep
      their arrival order. */
  function Insert<T>(x: T, s: seq<T>, le: (T, T) -> bool): (r: seq<T>)
    ensures multiset(r) == multiset(s) + multiset{x}
    ensures |r| == |s| + 1
  {
    if s == [] then [x]
    else if le(s[0], x) then
      assert s == [s[0]] + s[1..];
      [s[0]] + Insert(x, s[1..], le)
    else [x] + s
  }

  /** Insertion sort, stable; what `Array.prototype.sort` and `sorted` compute for a
      comparator that is a total preorder. */
  function SortBy<T>(s: seq<T>, le: (T, T) -> bool): (r: seq<T>)
    ensures multiset(r) == multiset(s)
    ensures |r| == |s|
  {
    if s == [] then []
    else
      assert s == s[..|s| - 1] + [s[|s| - 1]];
      Insert(s[|s| - 1], SortBy(s[..|s| - 1], le), le)
  }

  lemma {:induction false} InsertSorted<T(!new)>(x: T, s: seq<T>, le: (T, T) -> bool)
    requires TotalPreorder(le) && SortedBy(s, le)
    ensures SortedBy(Insert(x, s, le), le)
  {
    if s != [] && le(s[0], x) {
      InsertSorted(x, s[1..], le);
      var r := Insert(x, s, le);
      var t := Insert(x, s[1..], le);
      assert r == [s[0]] + t;
      assert forall y :: y in multiset(t) ==> y == x || y in multiset(s[1..]);
      forall j | 1 <= j < |r| ensures le(r[0], r[j]) {
        assert r[j] in multiset(t);
        if r[j] != x {
          assert r[j] in s[1..];
          var k :| 0 <= k < |s[1..]| && s[1..][k] == r[j];
          assert s[k + 1] == r[j];
        }
      }
    }
  }

  /** The sort produces an ordered permutation of its input. */
  lemma SortByLast<T>(s: seq<T>, le: (T, T) -> bool)
    requires s != []
    ensures SortBy(s, le) == Insert(s[|s| - 1], SortBy(s[..|s| - 1], le), le)
  {
  }

  lemma {:induction false} SortBySorted<T(!new)>(s: seq<T>, le: (T, T) -> bool)
    requires TotalPreorder(le)
    ensures SortedBy(SortBy(s, le), le)
  {
    if s != [] {
      SortBySorted(s[..|s| - 1], le);
      InsertSorted(s[|s| - 1], SortBy(s[..|s| - 1], le), le);
    }
  }

  /** Two elements the comparator cannot tell apart. */
  predicate Tied<T>(le: (T, T) -> bool, a: T, b: T) { le(a, b) && le(b, a) }

  /** The elements of `s` tied with `y`, in their order in `s`. */
  function TieClass<T>(s: seq<T>, le: (T, T) -> bool, y: T): seq<T>
  {
    if s == [] then []
    else (if Tied(le, s[0], y) then [s[0]] else []) + TieClass(s[1..], le, y)
  }

  lemma {:induction false} TieClassAppend<T>(a: seq<T>, b: seq<T>, le: (T, T) -> bool, y: T)
    ensures TieClass(a + b, le, y) == TieClass(a, le, y) + TieClass(b, le, y)
  {
    if a == [] {
      assert a + b == b;
    } else {
      var h := if Tied(le, a[0], y) then [a[0]] else [];
      calc {
        TieClass(a + b, le, y);
        { assert (a + b)[0] == a[0]; }
        h + TieClass((a + b)[1..], le, y);
        { assert (a + b)[1..] == a[1..] + b; }
        h + TieClass(a[1..] + b, le, y);
        { TieClassAppend(a[1..], b, le, y); }
        h + (TieClass(a[1..], le, y) + TieClass(b, le, y));
      }
    }
  }

  lemma {:induction false} TieClassNone<T>(s: seq<T>, le: (T, T) -> bool, y: T)
    requires forall k :: 0 <= k < |s| ==> !Tied(le, s[k], y)
    ensures TieClass(s, le, y) == []
  {
    if s != [] {
      TieClassNone(s[1..], le, y);
    }
  }

  /** An element strictly below the head of a sorted sequence is tied with none of it. */
  lemma BelowHeadNotTied<T(!new)>(x: T, s: seq<T>, le: (T, T) -> bool, y: T)
    requires TotalPreorder(le) && SortedBy(s, le)
    requires s != [] && !le(s[0], x) && Tied(le, x, y)
    ensures forall k :: 0 <= k < |s| ==> !Tied(le, s[k], y)
  {
    forall k | 0 <= k < |s| ensures !Tied(le, s[k], y) {
      // s[0] <= s[k] and y <= x, so s[k] <= y would put s[0] <= x
      assert le(s[0], s[k]);
      assert le(y, x);
    }
  }

  lemma SortedTail<T>(s: seq<T>, le: (T, T) -> bool)
    requires s != [] && SortedBy(s, le)
    ensures SortedBy(s[1..], le)
  {
  }

  /** The tie class of a sequence with one more element in front. */
  lemma TieClassCons<T>(a: T, s: seq<T>, le: (T, T) -> bool, y: T)
    ensures TieClass([a] + s, le, y) == (if Tied(le, a, y) then [a] else []) + TieClass(s, le, y)
  {
    assert ([a] + s)[0] == a;
    assert ([a] + s)[1..] == s;
  }

  lemma {:induction false} InsertStable<T(!new)>(x: T, s: seq<T>, le: (T, T) -> bool, y: T)
    requires TotalPreorder(le) && SortedBy(s, le)
    ensures TieClass(Insert(x, s, le), le, y) == TieClass(s, le, y) + TieClass([x], le, y)
  {
    var hx := if Tied(le, x, y) then [x] else [];
    assert TieClass([x], le, y) == hx by {
      TieClassCons(x, [], le, y);
      assert [x] + [] == [x];
    }
    if s == [] {
    } else if le(s[0], x) {
      SortedTail(s, le);
      InsertStable(x, s[1..], le, y);
      TieClassConsBoth(s[0], Insert(x, s[1..], le), s[1..], le, y, hx);
      assert Insert(x, s, le) == [s[0]] + Insert(x, s[1..], le);
      assert [s[0]] + s[1..] == s;
    } else {
      InsertStableAhead(x, s, le, y, hx);
    }
  }

  /** Putting the same element in front of two sequences keeps an equation between
      their tie classes. */
  lemma TieClassConsBoth<T>(a: T, t: seq<T>, rest: seq<T>, le: (T, T) -> bool, y: T, hx: seq<T>)
    requires TieClass(t, le, y) == TieClass(rest, le, y) + hx
    ensures TieClass([a] + t, le, y) == TieClass([a] + rest, le, y) + hx
  {
    calc {
      TieClass([a] + t, le, y);
      { TieClassAppend([a], t, le, y); }
      TieClass([a], le, y) + TieClass(t, le, y);
      TieClass([a], le, y) + (TieClass(rest, le, y) + hx);
      (TieClass([a], le, y) + TieClass(rest, le, y)) + hx;
      { TieClassAppend([a], rest, le, y); }
      TieClass([a] + rest, le, y) + hx;
    }
  }

  /** `x` goes in front: none of `s` ties with a `y` that ties with `x`. */
  lemma InsertStableAhead<T(!new)>(x: T, s: seq<T>, le: (T, T) -> bool, y: T, hx: seq<T>)
    requires TotalPreorder(le) && SortedBy(s, le)
    requires s != [] && !le(s[0], x)
    requires hx == if Tied(le, x, y) then [x] else []
    ensures TieClass(Insert(x, s, le), le, y) == TieClass(s, le, y) + hx
  {
    assert Insert(x, s, le) == [x] + s;
    TieClassCons(x, s, le, y);
    if Tied(le, x, y) {
      BelowHeadNotTied(x, s, le, y);
      TieClassNone(s, le, y);
    }
  }

  /** Stability: for every class of tied elements, the sort keeps their input order. */
  lemma {:induction false} SortByStable<T(!new)>(s: seq<T>, le: (T, T) -> bool, y: T)
    requires TotalPreorder(le)
    ensures TieClass(SortBy(s, le), le, y) == TieClass(s, le, y)
  {
    if s != [] {
      var init := s[..|s| - 1];
      SortByStable(init, le, y);
      SortBySorted(init, le);
      InsertStable(s[|s| - 1], SortBy(init, le), le, y);
      assert s == init + [s[|s| - 1]];
      TieClassAppend(init, [s[|s| - 1]], le, y);
    }
  }

  /** Lexicographic order on character codes; the model's stand-in for `localeCompare`. */
  predicate LexLe(a: string, b: string)
  {
    a == [] || (b != [] && (a[0] < b[0] || (a[0] == b[0] && LexLe(a[1..], b[1..]))))
  }

  lemma {:induction false} LexLeTotal(a: string, b: string)
    ensures LexLe(a, b) || LexLe(b, a)
  {
    if a != [] && b != [] && a[0] == b[0] {
      LexLeTotal(a[1..], b[1..]);
    }
  }

  lemma {:induction false} LexLeTransitive(a: string, b: string, c: string)
    requires LexLe(a, b) && LexLe(b, c)
    ensures LexLe(a, c)
  {
    if a != [] && b != [] && c != [] && a[0] == b[0] && b[0] == c[0] {
      LexLeTransitive(a[1..], b[1..], c[1..]);
    }
  }

  /** Ordering records by a string field with `LexLe` is a comparator a sort can use. */
  lemma LexKeyTotalPreorder<T(!new)>(key: T -> string)
    ensures TotalPreorder((a: T, b: T) => LexLe(key(a), key(b)))
  {
    forall a: T, b: T ensures LexLe(key(a), key(b)) || LexLe(key(b), key(a)) {
      LexLeTotal(key(a), key(b));
    }
    forall a: T, b: T, c: T | LexLe(key(a), key(b)) && LexLe(key(b), key(c))
      ensures LexLe(key(a), key(c))
    {
      LexLeTransitive(key(a), key(b), key(c));
    }
  }

  /** Ordering records by an integer field, ascending or descending, is a comparator. */
  lemma IntKeyTotalPreorder<T(!new)>(key: T -> int)
    ensures TotalPreorder((a: T, b: T) => key(a) <= key(b))
    ensures TotalPreorder((a: T, b: T) => key(a) >= key(b))
  {
  }
}
