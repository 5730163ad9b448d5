/**
  The channel-overlap script (ss.py).

  The script asks a video platform's data API about two channels, follows the
  continuation tokens of two paged endpoints, intersects the subscriber identifiers of
  the channels, adds up view counts per identifier and ranks the five largest totals.

  Every HTTP request is an abstract step: a paged endpoint is given as the sequence of
  decoded responses it answers to successive requests of one paging loop, and an
  endpoint that is asked once is given as a function from its request parameter to its
  decoded answer. JSON decoding and `int(...)` parsing happen before the model sees the
  data; the float percentages are kept as the numerator and denominator they divide.
*/
module ChannelOverlap {
  import opened Common

  // ---------------------------------------------------------------------------
  // Paging (fetch_subscriber_ids, fetch_video_view_counts)

  /** One decoded response of a paged endpoint: the identifiers its items carry, in
      item order, and its `nextPageToken` when it has one. */
  datatype Page = Page(items: seq<string>, nextPageToken: Option<string>)

  /** How far a paging loop reads: the index of the first response without a token. */
  function StopIndex(pages: seq<Page>): (k: nat)
    ensures k <= |pages|
    ensures k < |pages| ==> pages[k].nextPageToken.None?
    ensures forall j :: 0 <= j < k ==> pages[j].nextPageToken.Some?
  {
    if pages == [] then 0
    else if pages[0].nextPageToken.None? then 0
    else 1 + StopIndex(pages[1..])
  }

  /** The items of the given responses, page after page. */
  function Flatten(pages: seq<Page>): seq<string>
  {
    if pages == [] then [] else Flatten(pages[..|pages| - 1]) + pages[|pages| - 1].items
  }

  /** The `pageToken` parameter each request of a paging loop carries: none at first,
      then the token of the response before. */
  function TokensSent(pages: seq<Page>, n: nat): (t: seq<Option<string>>)
    requires n <= |pages| + 1
    ensures |t| == n
  {
    seq(n, k requires 0 <= k < n => if k == 0 then None else pages[k - 1].nextPageToken)
  }

  datatype OverlapError =
    | ChannelNotFound       // `data["items"][0]` on an empty item list
    | PagingNotFinished     // every given response carried a continuation token
    | DivisionByZero        // the first channel reports 0 subscribers or 0 views

  /** The `while True` loop shared by both paged fetches: request, append every item
      of the response, and either copy `nextPageToken` into the parameters or stop.
      `responses[k]` is the API's answer to request `k`; `sent[k]` is the token that
      request carried. */
  method CollectPages(responses: seq<Page>) returns (r: Option<seq<string>>, sent: seq<Option<string>>)
    ensures var stop := StopIndex(responses);
      && (stop < |responses| ==> r == Some(Flatten(responses[..stop + 1])) && sent == TokensSent(responses, stop + 1))
      && (stop == |responses| ==> r == None && sent == TokensSent(responses, |responses|))
  {
    var pageToken: Option<string> := None;
    var collected: seq<string> := [];
    sent := [];
    var k := 0;
    while k < |responses|
      invariant k <= StopIndex(responses)
      invariant collected == Flatten(responses[..k])
      invariant sent == TokensSent(responses, k)
      invariant pageToken == if k == 0 then None else responses[k - 1].nextPageToken
    {
      sent := sent + [pageToken];
      var data := responses[k];
      var j := 0;
      while j < |data.items|
        invariant j <= |data.items|
        invariant collected == Flatten(responses[..k]) + data.items[..j]
      {
        collected := collected + [data.items[j]];
        j := j + 1;
      }
      assert responses[..k + 1][..k] == responses[..k];
      assert data.items[..j] == data.items;
      if data.nextPageToken.None? {
        assert sent == TokensSent(responses, k + 1);
        return Some(collected), sent;
      }
      pageToken := data.nextPageToken;
      k := k + 1;
    }
    r := None;
  }

  /** The id list of the statistics request names exactly the collected videos, in
      order, provided no identifier contains a comma. */
  lemma JoinCommaRoundTrip(ids: seq<string>)
    requires |ids| >= 1
    requires forall k :: 0 <= k < |ids| ==> ',' !in ids[k]
    ensures Split(Join(ids, ','), ',') == ids
  {
    SplitJoinRoundTrip(ids, ',');
  }

  /** `fetch_subscriber_ids`: the paged subscriptions listing. */
  method FetchSubscriberIds(responses: seq<Page>) returns (ids: Option<seq<string>>)
    ensures StopIndex(responses) < |responses| <==> ids.Some?
    ensures ids.Some? ==> ids.value == Flatten(responses[..StopIndex(responses) + 1])
  {
    var sent;
    ids, sent := CollectPages(responses);
  }

  /** `fetch_video_view_counts`: the paged search for the channel's videos, then one
      statistics request naming every collected video; the view counts come back in
      the order of the statistics response. */
  method FetchVideoViewCounts(responses: seq<Page>, statistics: string -> seq<nat>)
    returns (views: Option<seq<nat>>, idParam: string)
    ensures StopIndex(responses) < |responses| <==> views.Some?
    ensures views.Some? ==>
      && idParam == Join(Flatten(responses[..StopIndex(responses) + 1]), ',')
      && views.value == statistics(idParam)
  {
    var videoIds, sent := CollectPages(responses);
    idParam := "";
    if videoIds.None? {
      return None, idParam;
    }
    idParam := Join(videoIds.value, ',');
    var counts := statistics(idParam);
    var videoViews: seq<nat> := [];
    for j := 0 to |counts|
      invariant videoViews == counts[..j]
    {
      videoViews := videoViews + [counts[j]];
    }
    views := Some(videoViews);
  }

  // ---------------------------------------------------------------------------
  // Channel profile (fetch_data)

  /** The fields read from one item of the channel metadata response. */
  datatype ChannelItem = ChannelItem(id: string, subscriberCount: nat, viewCount: nat)

  datatype Profile = Profile(channelId: string, subscribers: nat, views: nat)

  /** `fetch_data`: the first item of the metadata response, if there is one. */
  function FetchData(items: seq<ChannelItem>): (r: Result<Profile>)
    ensures r.Failure? <==> items == []
    ensures r.Success? ==> r.value == Profile(items[0].id, items[0].subscriberCount, items[0].viewCount)
  {
    if items == [] then Failure(ChannelNotFound)
    else Success(Profile(items[0].id, items[0].subscriberCount, items[0].viewCount))
  }

  datatype Result<T> = Success(value: T) | Failure(error: OverlapError)

  // ---------------------------------------------------------------------------
  // Common subscribers

  function SetOf(s: seq<string>): set<string> { set x | x in s }

  /** `len(list(set(a).intersection(b)))`. */
  function CommonCount(a: seq<string>, b: seq<string>): nat
  {
    |SetOf(a) * SetOf(b)|
  }

  lemma {:induction false} SetOfCard(s: seq<string>)
    ensures |SetOf(s)| <= |s|
  {
    if s != [] {
      SetOfCard(s[1..]);
      assert SetOf(s) == SetOf(s[1..]) + {s[0]};
    }
  }

  /** The count is symmetric. */
  lemma CommonCountSymmetric(a: seq<string>, b: seq<string>)
    ensures CommonCount(a, b) == CommonCount(b, a)
  {
    assert SetOf(a) * SetOf(b) == SetOf(b) * SetOf(a);
  }

  /** Duplicates in either list do not change the count. */
  lemma CommonCountIgnoresDuplicates(a: seq<string>, b: seq<string>)
    ensures CommonCount(a, b) == CommonCount(Distinct(a), Distinct(b))
  {
    assert SetOf(Distinct(a)) == SetOf(a);
    assert SetOf(Distinct(b)) == SetOf(b);
  }

  /** The count never exceeds the length of either list. */
  lemma CommonCountBounded(a: seq<string>, b: seq<string>)
    ensures CommonCount(a, b) <= |a| && CommonCount(a, b) <= |b|
  {
    SetOfCard(a);
    SetOfCard(b);
    SubsetCard(SetOf(a) * SetOf(b), SetOf(a));
    SubsetCard(SetOf(a) * SetOf(b), SetOf(b));
  }

  lemma {:induction false} SubsetCard(x: set<string>, y: set<string>)
    requires x <= y
    ensures |x| <= |y|
    decreases x
  {
    if x != {} {
      var e :| e in x;
      SubsetCard(x - {e}, y - {e});
    }
  }

  /** {s1, s2, s3} against {s2, s3, s4} shares two subscribers. */
  lemma CommonCountExample()
    ensures CommonCount(["s1", "s2", "s3"], ["s2", "s3", "s4"]) == 2
  {
    var a: seq<string> := ["s1", "s2", "s3"];
    var b: seq<string> := ["s2", "s3", "s4"];
    assert SetOf(a) == {"s1", "s2", "s3"};
    assert SetOf(b) == {"s2", "s3", "s4"};
    assert SetOf(a) * SetOf(b) == {"s2", "s3"};
  }

  // ---------------------------------------------------------------------------
  // Accumulating view counts per identifier

  /** One entry of `viewed_videos.items()`. */
  datatype Entry = Entry(id: string, views: nat)

  /** The sum of the counts paired with `k` in the zipped lists. */
  function PairedSum(k: string, keys: seq<string>, views: seq<nat>): nat
    requires |keys| == |views|
  {
    if keys == [] then 0
    else
      var n := |keys| - 1;
      PairedSum(k, keys[..n], views[..n]) + (if keys[n] == k then views[n] else 0)
  }

  /** `viewed_videos.items()` of a dict whose keys were inserted in `order`. */
  function Items(order: seq<string>, totals: map<string, nat>): seq<Entry>
    requires forall x :: x in order ==> x in totals
  {
    if order == [] then [] else [Entry(order[0], totals[order[0]])] + Items(order[1..], totals)
  }

  function ViewsSum(es: seq<Entry>): nat
  {
    if es == [] then 0 else es[0].views + ViewsSum(es[1..])
  }

  lemma {:induction false} ItemsAppend(order: seq<string>, totals: map<string, nat>, k: string)
    requires forall x :: x in order ==> x in totals
    requires k in totals
    ensures ViewsSum(Items(order + [k], totals)) == ViewsSum(Items(order, totals)) + totals[k]
  {
    if order != [] {
      assert (order + [k])[1..] == order[1..] + [k];
      ItemsAppend(order[1..], totals, k);
    }
  }

  lemma {:induction false} ItemsUntouched(order: seq<string>, totals: map<string, nat>, k: string, v: nat)
    requires forall x :: x in order ==> x in totals
    requires k !in order
    ensures Items(order, totals[k := v]) == Items(order, totals)
  {
    if order != [] {
      ItemsUntouched(order[1..], totals, k, v);
    }
  }

  lemma {:induction false} ItemsBump(order: seq<string>, totals: map<string, nat>, k: string, v: nat)
    requires forall x :: x in order ==> x in totals
    requires forall i, j :: 0 <= i < j < |order| ==> order[i] != order[j]
    requires k in order
    ensures ViewsSum(Items(order, totals[k := totals[k] + v])) == ViewsSum(Items(order, totals)) + v
  {
    if order[0] == k {
      assert k !in order[1..];
      ItemsUntouched(order[1..], totals, k, totals[k] + v);
    } else {
      ItemsBump(order[1..], totals, k, v);
    }
  }

  /** What the accumulation loop has built after the first `i` pairs. */
  ghost predicate Accumulated(keys: seq<string>, views: seq<nat>, i: nat,
                              totals: map<string, nat>, order: seq<string>)
  {
    && i <= |keys| && i <= |views|
    && order == Distinct(keys[..i])
    && (forall x :: x in totals <==> x in keys[..i])
    && (forall x :: x in totals ==> totals[x] == PairedSum(x, keys[..i], views[..i]))
    && ViewsSum(Items(order, totals)) == Sum(views[..i])
  }

  /** A pair whose key is already in the dict adds its count to that key. */
  lemma AccumulateExisting(keys: seq<string>, views: seq<nat>, i: nat,
                           totals: map<string, nat>, order: seq<string>, t: map<string, nat>)
    requires i < |keys| && i < |views|
    requires Accumulated(keys, views, i, totals, order)
    requires keys[i] in totals && t == totals[keys[i] := totals[keys[i]] + views[i]]
    ensures Accumulated(keys, views, i + 1, t, order)
  {
    DistinctSnoc(keys, i);
    ExistingKeySum(keys, views, i, totals, order);
    ExistingKeyTotals(keys, views, i, totals, order, t);
  }

  lemma ExistingKeySum(keys: seq<string>, views: seq<nat>, i: nat,
                       totals: map<string, nat>, order: seq<string>)
    requires i < |keys| && i < |views|
    requires Accumulated(keys, views, i, totals, order)
    requires keys[i] in totals
    ensures ViewsSum(Items(order, totals[keys[i] := totals[keys[i]] + views[i]])) == Sum(views[..i + 1])
  {
    var k, v := keys[i], views[i];
    assert views[..i + 1] == views[..i] + [v];
    SumAppend(views[..i], [v]);
    assert k in order;
    ItemsBump(order, totals, k, v);
  }

  lemma ExistingKeyTotals(keys: seq<string>, views: seq<nat>, i: nat,
                          totals: map<string, nat>, order: seq<string>, t: map<string, nat>)
    requires i < |keys| && i < |views|
    requires Accumulated(keys, views, i, totals, order)
    requires keys[i] in totals && t == totals[keys[i] := totals[keys[i]] + views[i]]
    ensures forall x :: x in t <==> x in keys[..i + 1]
    ensures forall x :: x in t ==> t[x] == PairedSum(x, keys[..i + 1], views[..i + 1])
  {
    var k := keys[i];
    assert keys[..i + 1] == keys[..i] + [k];
    forall x | x in t ensures t[x] == PairedSum(x, keys[..i + 1], views[..i + 1]) {
      PairedSumSnoc(x, keys, views, i);
    }
  }

  /** A pair with a new key inserts it, at the end of the key order. */
  lemma AccumulateNew(keys: seq<string>, views: seq<nat>, i: nat,
                      totals: map<string, nat>, order: seq<string>, t: map<string, nat>)
    requires i < |keys| && i < |views|
    requires Accumulated(keys, views, i, totals, order)
    requires keys[i] !in totals && t == totals[keys[i] := views[i]]
    ensures Accumulated(keys, views, i + 1, t, order + [keys[i]])
  {
    DistinctSnoc(keys, i);
    NewKeySum(keys, views, i, totals, order);
    NewKeyTotals(keys, views, i, totals, order, t);
  }

  lemma NewKeySum(keys: seq<string>, views: seq<nat>, i: nat,
                  totals: map<string, nat>, order: seq<string>)
    requires i < |keys| && i < |views|
    requires Accumulated(keys, views, i, totals, order)
    requires keys[i] !in totals
    ensures ViewsSum(Items(order + [keys[i]], totals[keys[i] := views[i]])) == Sum(views[..i + 1])
  {
    var k, v := keys[i], views[i];
    assert views[..i + 1] == views[..i] + [v];
    SumAppend(views[..i], [v]);
    ItemsUntouched(order, totals, k, v);
    ItemsAppend(order, totals[k := v], k);
  }

  lemma NewKeyTotals(keys: seq<string>, views: seq<nat>, i: nat,
                     totals: map<string, nat>, order: seq<string>, t: map<string, nat>)
    requires i < |keys| && i < |views|
    requires Accumulated(keys, views, i, totals, order)
    requires keys[i] !in totals && t == totals[keys[i] := views[i]]
    ensures forall x :: x in t <==> x in keys[..i + 1]
    ensures forall x :: x in t ==> t[x] == PairedSum(x, keys[..i + 1], views[..i + 1])
  {
    var k := keys[i];
    assert keys[..i + 1] == keys[..i] + [k];
    forall x | x in t ensures t[x] == PairedSum(x, keys[..i + 1], views[..i + 1]) {
      if x != k {
        assert x in totals;
      }
      NewKeyTotal(x, keys, views, i, totals, t);
    }
  }

  lemma NewKeyTotal(x: string, keys: seq<string>, views: seq<nat>, i: nat,
                    totals: map<string, nat>, t: map<string, nat>)
    requires i < |keys| && i < |views|
    requires x in t && t == totals[keys[i] := views[i]] && keys[i] !in keys[..i]
    requires x != keys[i] ==> x in totals && totals[x] == PairedSum(x, keys[..i], views[..i])
    ensures t[x] == PairedSum(x, keys[..i + 1], views[..i + 1])
  {
    PairedSumSnoc(x, keys, views, i);
    if x == keys[i] {
      PairedSumAbsent(x, keys[..i], views[..i]);
    }
  }

  lemma DistinctSnoc(keys: seq<string>, i: nat)
    requires i < |keys|
    ensures Distinct(keys[..i + 1]) ==
            if keys[i] in keys[..i] then Distinct(keys[..i]) else Distinct(keys[..i]) + [keys[i]]
  {
    assert keys[..i + 1][..i] == keys[..i];
  }

  lemma PairedSumSnoc(x: string, keys: seq<string>, views: seq<nat>, i: nat)
    requires i < |keys| && i < |views|
    ensures PairedSum(x, keys[..i + 1], views[..i + 1]) ==
            PairedSum(x, keys[..i], views[..i]) + (if keys[i] == x then views[i] else 0)
  {
    assert keys[..i + 1][..i] == keys[..i] && views[..i + 1][..i] == views[..i];
  }

  lemma {:induction false} PairedSumAbsent(k: string, keys: seq<string>, views: seq<nat>)
    requires |keys| == |views| && k !in keys
    ensures PairedSum(k, keys, views) == 0
  {
    if keys != [] {
      var n := |keys| - 1;
      PairedSumAbsent(k, keys[..n], views[..n]);
    }
  }

  lemma AccumulatedStart(keys: seq<string>, views: seq<nat>)
    ensures Accumulated(keys, views, 0, map[], [])
  {
    assert keys[..0] == [] && views[..0] == [];
  }

  /** The accumulation loop of `calculate_overlap`: `zip` pairs the two lists up to the
      shorter one, and every key ends up holding the sum of the counts paired with it.
      The dict keeps its keys in first-insertion order, which `order` records. */
  method AccumulateViews(keys: seq<string>, views: seq<nat>)
    returns (totals: map<string, nat>, order: seq<string>, pairs: nat)
    ensures pairs == Min(|keys|, |views|)
    ensures Accumulated(keys, views, pairs, totals, order)
  {
    pairs := Min(|keys|, |views|);
    totals := map[];
    order := [];
    var i := 0;
    AccumulatedStart(keys, views);
    while i < pairs
      invariant i <= pairs
      invariant Accumulated(keys, views, i, totals, order)
    {
      totals, order := AccumulateOne(keys, views, i, totals, order);
      i := i + 1;
    }
  }

  /** One turn of the loop: the pair's count is added to its key, which is inserted
      first if it is new. */
  method AccumulateOne(keys: seq<string>, views: seq<nat>, i: nat, totals: map<string, nat>, order: seq<string>)
    returns (totals': map<string, nat>, order': seq<string>)
    requires i < |keys| && i < |views|
    requires Accumulated(keys, views, i, totals, order)
    ensures Accumulated(keys, views, i + 1, totals', order')
  {
    var videoId, viewCount := keys[i], views[i];
    if videoId in totals {
      totals', order' := totals[videoId := totals[videoId] + viewCount], order;
      AccumulateExisting(keys, views, i, totals, order, totals');
    } else {
      totals', order' := totals[videoId := viewCount], order + [videoId];
      AccumulateNew(keys, views, i, totals, order, totals');
    }
  }

  // ---------------------------------------------------------------------------
  // Ranking

  /** `key=lambda x: x[1], reverse=True`: an entry may precede another with fewer views. */
  predicate MoreViewed(a: Entry, b: Entry) { a.views >= b.views }

  lemma MoreViewedIsPreorder()
    ensures TotalPreorder(MoreViewed)
  {
  }

  lemma {:induction false} ViewsSumInsert(x: Entry, s: seq<Entry>)
    ensures ViewsSum(Insert(x, s, MoreViewed)) == ViewsSum(s) + x.views
  {
    if s != [] && MoreViewed(s[0], x) {
      ViewsSumInsert(x, s[1..]);
    }
  }

  lemma {:induction false} ViewsSumSort(s: seq<Entry>)
    ensures ViewsSum(SortBy(s, MoreViewed)) == ViewsSum(s)
  {
    if s != [] {
      var init, last := s[..|s| - 1], s[|s| - 1];
      calc {
        ViewsSum(SortBy(s, MoreViewed));
        { SortByLast(s, MoreViewed); }
        ViewsSum(Insert(last, SortBy(init, MoreViewed), MoreViewed));
        { ViewsSumInsert(last, SortBy(init, MoreViewed)); }
        ViewsSum(SortBy(init, MoreViewed)) + last.views;
        { ViewsSumSort(init); }
        ViewsSum(init) + last.views;
        { ViewsSumSnoc(s); }
        ViewsSum(s);
      }
    }
  }

  lemma ViewsSumSnoc(s: seq<Entry>)
    requires s != []
    ensures ViewsSum(s) == ViewsSum(s[..|s| - 1]) + s[|s| - 1].views
  {
    ViewsSumAppend(s[..|s| - 1], [s[|s| - 1]]);
    assert s[..|s| - 1] + [s[|s| - 1]] == s;
  }

  lemma {:induction false} ViewsSumAppend(a: seq<Entry>, b: seq<Entry>)
    ensures ViewsSum(a + b) == ViewsSum(a) + ViewsSum(b)
  {
    if a != [] {
      assert (a + b)[1..] == a[1..] + b;
      ViewsSumAppend(a[1..], b);
    } else {
      assert a + b == b;
    }
  }

  lemma TieClassPrefix(s: seq<Entry>, m: nat, y: Entry)
    requires m <= |s|
    ensures TieClass(s[..m], MoreViewed, y) <= TieClass(s, MoreViewed, y)
  {
    assert s == s[..m] + s[m..];
    TieClassAppend(s[..m], s[m..], MoreViewed, y);
  }

  /** `sorted(viewed_videos.items(), key=..., reverse=True)[:5]`: at most five entries,
      most viewed first, drawn from the input; entries with equal counts keep their
      dict order; and their total never exceeds the total of all entries. */
  function TopFive(items: seq<Entry>): (r: seq<Entry>)
    ensures |r| == Min(5, |items|)
    ensures forall i, j :: 0 <= i < j < |r| ==> r[i].views >= r[j].views
    ensures multiset(r) <= multiset(items)
    ensures forall y :: TieClass(r, MoreViewed, y) <= TieClass(items, MoreViewed, y)
    ensures ViewsSum(r) <= ViewsSum(items)
    ensures forall x :: x in multiset(items) - multiset(r) ==> forall k :: 0 <= k < |r| ==> x.views <= r[k].views
  {
    var m := Min(5, |items|);
    SortedPrefix(items, m);
    PrefixMostViewed(items, m);
    SortBy(items, MoreViewed)[..m]
  }

  /** The first `m` entries of the ranking, as `TopFive` promises them. */
  lemma SortedPrefix(items: seq<Entry>, m: nat)
    requires m <= |items|
    ensures var r := SortBy(items, MoreViewed)[..m];
      && |r| == m
      && (forall i, j :: 0 <= i < j < |r| ==> r[i].views >= r[j].views)
      && multiset(r) <= multiset(items)
      && (forall y :: TieClass(r, MoreViewed, y) <= TieClass(items, MoreViewed, y))
      && ViewsSum(r) <= ViewsSum(items)
  {
    PrefixOrdered(items, m);
    PrefixDrawn(items, m);
    PrefixTies(items, m);
    PrefixViews(items, m);
  }

  lemma PrefixOrdered(items: seq<Entry>, m: nat)
    requires m <= |items|
    ensures |SortBy(items, MoreViewed)| == |items|
    ensures var r := SortBy(items, MoreViewed)[..m];
      forall i, j :: 0 <= i < j < |r| ==> r[i].views >= r[j].views
  {
    MoreViewedIsPreorder();
    SortBySorted(items, MoreViewed);
  }

  lemma PrefixDrawn(items: seq<Entry>, m: nat)
    requires m <= |items|
    ensures |SortBy(items, MoreViewed)| == |items|
    ensures multiset(SortBy(items, MoreViewed)[..m]) <= multiset(items)
  {
    var sorted := SortBy(items, MoreViewed);
    MoreViewedIsPreorder();
    SortBySorted(items, MoreViewed);
    assert sorted == sorted[..m] + sorted[m..];
    assert multiset(sorted[..m]) <= multiset(sorted);
  }

  lemma PrefixTies(items: seq<Entry>, m: nat)
    requires m <= |items|
    ensures |SortBy(items, MoreViewed)| == |items|
    ensures forall y :: TieClass(SortBy(items, MoreViewed)[..m], MoreViewed, y) <= TieClass(items, MoreViewed, y)
  {
    var sorted := SortBy(items, MoreViewed);
    MoreViewedIsPreorder();
    SortBySorted(items, MoreViewed);
    forall y ensures TieClass(sorted[..m], MoreViewed, y) <= TieClass(items, MoreViewed, y) {
      TieClassPrefix(sorted, m, y);
      SortByStable(items, MoreViewed, y);
    }
  }

  /** Whatever the first `m` entries leave out has no more views than any of them. */
  lemma PrefixMostViewed(items: seq<Entry>, m: nat)
    requires m <= |items|
    ensures |SortBy(items, MoreViewed)| == |items|
    ensures var r := SortBy(items, MoreViewed)[..m];
      forall x :: x in multiset(items) - multiset(r) ==> forall k :: 0 <= k < |r| ==> x.views <= r[k].views
  {
    var sorted := SortBy(items, MoreViewed);
    MoreViewedIsPreorder();
    SortBySorted(items, MoreViewed);
    LeftOutIsRest(items, sorted, m);
    RestNotAbove(sorted, m);
  }

  lemma LeftOutIsRest(items: seq<Entry>, sorted: seq<Entry>, m: nat)
    requires m <= |sorted| && multiset(sorted) == multiset(items)
    ensures multiset(items) - multiset(sorted[..m]) == multiset(sorted[m..])
  {
    assert sorted == sorted[..m] + sorted[m..];
  }

  lemma RestNotAbove(sorted: seq<Entry>, m: nat)
    requires m <= |sorted| && SortedBy(sorted, MoreViewed)
    ensures forall x :: x in multiset(sorted[m..]) ==> forall k :: 0 <= k < m ==> x.views <= sorted[k].views
  {
    forall x | x in multiset(sorted[m..])
      ensures forall k :: 0 <= k < m ==> x.views <= sorted[k].views
    {
      var j :| m <= j < |sorted| && sorted[j] == x;
      forall k | 0 <= k < m ensures x.views <= sorted[k].views {
        assert MoreViewed(sorted[k], sorted[j]);
      }
    }
  }

  lemma PrefixViews(items: seq<Entry>, m: nat)
    requires m <= |items|
    ensures |SortBy(items, MoreViewed)| == |items|
    ensures ViewsSum(SortBy(items, MoreViewed)[..m]) <= ViewsSum(items)
  {
    var sorted := SortBy(items, MoreViewed);
    MoreViewedIsPreorder();
    SortBySorted(items, MoreViewed);
    assert sorted == sorted[..m] + sorted[m..];
    ViewsSumAppend(sorted[..m], sorted[m..]);
    ViewsSumSort(items);
  }

  /** The dict the loop builds from the pairs `(ks[i], vs[i])`, as a value: every key
      with the sum of the counts paired with it. */
  function PairTotals(ks: seq<string>, vs: seq<nat>): (t: map<string, nat>)
    requires |ks| == |vs|
    ensures forall x :: x in t <==> x in ks
  {
    map x | x in ks :: PairedSum(x, ks, vs)
  }

  /** `sorted(viewed_videos.items(), ...)[:5]` of that dict, whose keys stand in order of
      first occurrence. */
  function RankPairs(ks: seq<string>, vs: seq<nat>): seq<Entry>
    requires |ks| == |vs|
  {
    TopFive(Items(Distinct(ks), PairTotals(ks, vs)))
  }

  /** The ranking of `calculate_overlap`: `zip` pairs the two lists up to the shorter. */
  function Ranking(keys: seq<string>, views: seq<nat>): seq<Entry>
  {
    var n := Min(|keys|, |views|);
    RankPairs(keys[..n], views[..n])
  }

  /** The entries of the items list: one per key of `order`, with its total. */
  lemma {:induction false} ItemsAt(order: seq<string>, totals: map<string, nat>)
    requires forall x :: x in order ==> x in totals
    ensures |Items(order, totals)| == |order|
    ensures forall k :: 0 <= k < |order| ==> Items(order, totals)[k] == Entry(order[k], totals[order[k]])
  {
    if order != [] {
      ItemsAt(order[1..], totals);
    }
  }

  /** Most viewed first. */
  predicate ViewsDescending(r: seq<Entry>)
  {
    forall i, j :: 0 <= i < j < |r| ==> r[i].views >= r[j].views
  }

  /** Every entry is a key of the pairs with the sum of the counts paired with it. */
  predicate SummedEntries(r: seq<Entry>, ks: seq<string>, vs: seq<nat>)
    requires |ks| == |vs|
  {
    forall k :: 0 <= k < |r| ==> r[k].id in ks && r[k].views == PairedSum(r[k].id, ks, vs)
  }

  /** A key with no entry has no more views than any entry. */
  predicate NoneLeftAbove(r: seq<Entry>, ks: seq<string>, vs: seq<nat>)
    requires |ks| == |vs|
  {
    forall x :: x in ks && (forall k :: 0 <= k < |r| ==> r[k].id != x) ==>
      forall k :: 0 <= k < |r| ==> PairedSum(x, ks, vs) <= r[k].views
  }

  /** The ranking holds five entries, or one per distinct key when there are fewer; each
      is a key of the pairs with the sum of its paired counts, most viewed first; and a
      key left out has no more views than any entry kept. */
  lemma RankPairsProperties(ks: seq<string>, vs: seq<nat>)
    requires |ks| == |vs|
    ensures |RankPairs(ks, vs)| == Min(5, |Distinct(ks)|)
    ensures ViewsDescending(RankPairs(ks, vs))
    ensures SummedEntries(RankPairs(ks, vs), ks, vs)
    ensures NoneLeftAbove(RankPairs(ks, vs), ks, vs)
  {
    var order, totals := Distinct(ks), PairTotals(ks, vs);
    ItemsAt(order, totals);
    RankedOfItems(ks, vs, order, totals, TopFive(Items(order, totals)));
  }

  /** The four properties, for any `r` that `TopFive` may return on the items list. */
  lemma RankedOfItems(ks: seq<string>, vs: seq<nat>, order: seq<string>, totals: map<string, nat>, r: seq<Entry>)
    requires |ks| == |vs| && order == Distinct(ks) && totals == PairTotals(ks, vs)
    requires |r| == Min(5, |Items(order, totals)|) && ViewsDescending(r)
    requires multiset(r) <= multiset(Items(order, totals))
    requires forall e :: e in multiset(Items(order, totals)) - multiset(r) ==>
               forall k :: 0 <= k < |r| ==> e.views <= r[k].views
    ensures |r| == Min(5, |Distinct(ks)|) && ViewsDescending(r)
    ensures SummedEntries(r, ks, vs) && NoneLeftAbove(r, ks, vs)
  {
    ItemsAt(order, totals);
    RankedFromItems(order, totals, r);
    RankedEntries(ks, vs, order, totals, r);
    LeftOutNotAbove(order, totals, r);
    LeftOutKeys(ks, vs, order, totals, r);
  }

  /** The entries' views are the paired sums of their keys. */
  lemma RankedEntries(ks: seq<string>, vs: seq<nat>, order: seq<string>, totals: map<string, nat>, r: seq<Entry>)
    requires |ks| == |vs|
    requires forall x :: x in order <==> x in ks
    requires forall x :: x in totals ==> x in ks && totals[x] == PairedSum(x, ks, vs)
    requires forall x :: x in order ==> x in totals
    requires forall k :: 0 <= k < |r| ==> r[k].id in order && r[k].views == totals[r[k].id]
    ensures SummedEntries(r, ks, vs)
  {
  }

  /** A key of `order` whose entry was not ranked has no more views than a ranked one. */
  lemma LeftOutNotAbove(order: seq<string>, totals: map<string, nat>, r: seq<Entry>)
    requires forall x :: x in order ==> x in totals
    requires forall e :: e in multiset(Items(order, totals)) - multiset(r) ==>
               forall k :: 0 <= k < |r| ==> e.views <= r[k].views
    ensures forall x :: x in order && (forall k :: 0 <= k < |r| ==> r[k].id != x) ==>
              forall k :: 0 <= k < |r| ==> totals[x] <= r[k].views
  {
    var items := Items(order, totals);
    ItemsAt(order, totals);
    forall x | x in order && (forall k :: 0 <= k < |r| ==> r[k].id != x)
      ensures forall k :: 0 <= k < |r| ==> totals[x] <= r[k].views
    {
      var i :| 0 <= i < |order| && order[i] == x;
      var e := items[i];
      assert e == Entry(x, totals[x]);
      assert e in multiset(items);
      assert e !in multiset(r);
      assert e in multiset(items) - multiset(r);
    }
  }

  /** The same, with the totals read as paired sums. */
  lemma LeftOutKeys(ks: seq<string>, vs: seq<nat>, order: seq<string>, totals: map<string, nat>, r: seq<Entry>)
    requires |ks| == |vs|
    requires forall x :: x in order <==> x in ks
    requires forall x :: x in totals ==> totals[x] == PairedSum(x, ks, vs)
    requires forall x :: x in order ==> x in totals
    requires forall x :: x in order && (forall k :: 0 <= k < |r| ==> r[k].id != x) ==>
               forall k :: 0 <= k < |r| ==> totals[x] <= r[k].views
    ensures NoneLeftAbove(r, ks, vs)
  {
  }

  /** Every ranked entry is an entry of the items list. */
  lemma RankedFromItems(order: seq<string>, totals: map<string, nat>, r: seq<Entry>)
    requires forall x :: x in order ==> x in totals
    requires multiset(r) <= multiset(Items(order, totals))
    ensures forall k :: 0 <= k < |r| ==> r[k].id in order && r[k].views == totals[r[k].id]
  {
    var items := Items(order, totals);
    ItemsAt(order, totals);
    forall k | 0 <= k < |r| ensures r[k].id in order && r[k].views == totals[r[k].id] {
      assert r[k] in multiset(r);
      assert r[k] in items;
      var i :| 0 <= i < |items| && items[i] == r[k];
    }
  }

  /** The ranking step of `calculate_overlap`: the paired counts summed per video, then
      the five most viewed, whose views together are at most those of all the pairs. */
  method RankVideos(keys: seq<string>, views: seq<nat>) returns (viewedVideos: seq<Entry>)
    ensures viewedVideos == Ranking(keys, views)
    ensures |viewedVideos| <= 5
    ensures ViewsSum(viewedVideos) <= Sum(views[..Min(|keys|, |views|)])
  {
    var totals, order, pairs := AccumulateViews(keys, views);
    AccumulatedTotals(keys, views, totals, order);
    viewedVideos := TopFive(Items(order, totals));
  }

  /** After the whole loop the dict is `Totals` and its key order is `Distinct`. */
  lemma AccumulatedTotals(keys: seq<string>, views: seq<nat>, totals: map<string, nat>, order: seq<string>)
    requires Accumulated(keys, views, Min(|keys|, |views|), totals, order)
    ensures var n := Min(|keys|, |views|);
      totals == PairTotals(keys[..n], views[..n]) && order == Distinct(keys[..n])
  {
  }

  // ---------------------------------------------------------------------------
  // calculate_overlap

  /** A paging loop ends within the given responses. */
  predicate Finished(pages: seq<Page>)
  {
    StopIndex(pages) < |pages|
  }

  /** The identifiers a finished paging loop collects. */
  function Collected(pages: seq<Page>): seq<string>
    requires Finished(pages)
  {
    Flatten(pages[..StopIndex(pages) + 1])
  }

  /** The view counts of a finished search: the statistics of the collected videos. */
  function ViewCounts(pages: seq<Page>, statistics: string -> seq<nat>): seq<nat>
    requires Finished(pages)
  {
    statistics(Join(Collected(pages), ','))
  }

  /** The returned report. The two percentages are `round(num / den * 100, 2)`; the
      model keeps each numerator and denominator. */
  datatype Report = Report(
    channel1: Profile,
    channel2: Profile,
    commonCount: nat,
    viewedVideos: seq<Entry>,
    viewsNumerator: nat)

  /** What a report says about the answers of the endpoints: the two profiles, with
      the first channel's counts positive; all four paging loops finished; the common
      subscribers of the two channels; the ranking of the collected identifiers of both
      channels paired with the view counts of both searches; and the numerator as the
      total views of that ranking. */
  predicate Reports(
    meta1: seq<ChannelItem>, meta2: seq<ChannelItem>,
    subscriptions: string -> seq<Page>,
    search: string -> seq<Page>,
    statistics: string -> seq<nat>,
    report: Report)
  {
    && meta1 != [] && meta2 != []
    && report.channel1 == FetchData(meta1).value
    && report.channel2 == FetchData(meta2).value
    && report.channel1.subscribers > 0 && report.channel1.views > 0
    && Finished(subscriptions(meta1[0].id)) && Finished(subscriptions(meta2[0].id))
    && Finished(search(meta1[0].id)) && Finished(search(meta2[0].id))
    && report.commonCount == CommonCount(Collected(subscriptions(meta1[0].id)), Collected(subscriptions(meta2[0].id)))
    && report.viewedVideos == Ranking(
         Collected(subscriptions(meta1[0].id)) + Collected(subscriptions(meta2[0].id)),
         ViewCounts(search(meta1[0].id), statistics) + ViewCounts(search(meta2[0].id), statistics))
    && |report.viewedVideos| <= 5
    && report.viewsNumerator == ViewsSum(report.viewedVideos)
  }

  /** The tail of `calculate_overlap` once everything is fetched: the common count,
      the ranking of the paired lists and its view total, or a failure when the first
      channel's counts cannot divide. */
  method Summarise(
    channel1Data: Profile, channel2Data: Profile,
    subs1: seq<string>, subs2: seq<string>, views1: seq<nat>, views2: seq<nat>)
    returns (r: Result<Report>)
    ensures r.Success? <==> channel1Data.subscribers > 0 && channel1Data.views > 0
    ensures r.Failure? ==> r.error == DivisionByZero
    ensures r.Success? ==>
      && r.value.channel1 == channel1Data && r.value.channel2 == channel2Data
      && r.value.commonCount == CommonCount(subs1, subs2)
      && r.value.viewedVideos == Ranking(subs1 + subs2, views1 + views2)
      && |r.value.viewedVideos| <= 5
      && r.value.viewsNumerator == ViewsSum(r.value.viewedVideos)
  {
    var commonCount := CommonCount(subs1, subs2);
    var viewedVideos := RankVideos(subs1 + subs2, views1 + views2);
    if channel1Data.subscribers == 0 || channel1Data.views == 0 {
      return Failure(DivisionByZero);
    }
    r := Success(Report(channel1Data, channel2Data, commonCount, viewedVideos, ViewsSum(viewedVideos)));
  }

  /** Both channels are found and all four paging loops end within the answers. */
  predicate PagingEnds(
    meta1: seq<ChannelItem>, meta2: seq<ChannelItem>,
    subscriptions: string -> seq<Page>,
    search: string -> seq<Page>)
  {
    && meta1 != [] && meta2 != []
    && Finished(subscriptions(meta1[0].id)) && Finished(subscriptions(meta2[0].id))
    && Finished(search(meta1[0].id)) && Finished(search(meta2[0].id))
  }

  /** `calculate_overlap`: every request is answered by the given endpoints, indexed by
      the channel id the request carries. It reports exactly when both channels are
      found, all paging ends and the first channel's counts can divide; otherwise the
      first of those to go wrong names the failure. */
  method CalculateOverlap(
    meta1: seq<ChannelItem>, meta2: seq<ChannelItem>,
    subscriptions: string -> seq<Page>,
    search: string -> seq<Page>,
    statistics: string -> seq<nat>)
    returns (r: Result<Report>)
    ensures meta1 == [] || meta2 == [] ==> r == Failure(ChannelNotFound)
    ensures meta1 != [] && meta2 != [] && !PagingEnds(meta1, meta2, subscriptions, search) ==>
      r == Failure(PagingNotFinished)
    ensures PagingEnds(meta1, meta2, subscriptions, search) ==>
      (r.Success? <==> meta1[0].subscriberCount > 0 && meta1[0].viewCount > 0)
    ensures PagingEnds(meta1, meta2, subscriptions, search) && r.Failure? ==> r.error == DivisionByZero
    ensures r.Success? ==> Reports(meta1, meta2, subscriptions, search, statistics, r.value)
  {
    var d1 := FetchData(meta1);
    var d2 := FetchData(meta2);
    if d1.Failure? || d2.Failure? {
      return Failure(ChannelNotFound);
    }
    var channel1Data, channel2Data := d1.value, d2.value;
    assert channel1Data.channelId == meta1[0].id && channel2Data.channelId == meta2[0].id;
    var subs1 := FetchSubscriberIds(subscriptions(channel1Data.channelId));
    var subs2 := FetchSubscriberIds(subscriptions(channel2Data.channelId));
    if subs1.None? || subs2.None? {
      assert !PagingEnds(meta1, meta2, subscriptions, search);
      return Failure(PagingNotFinished);
    }
    assert subs1.value == Collected(subscriptions(meta1[0].id));
    assert subs2.value == Collected(subscriptions(meta2[0].id));
    var views1, ids1 := FetchVideoViewCounts(search(channel1Data.channelId), statistics);
    var views2, ids2 := FetchVideoViewCounts(search(channel2Data.channelId), statistics);
    if views1.None? || views2.None? {
      assert !PagingEnds(meta1, meta2, subscriptions, search);
      return Failure(PagingNotFinished);
    }
    assert views1.value == ViewCounts(search(meta1[0].id), statistics);
    assert views2.value == ViewCounts(search(meta2[0].id), statistics);
    assert PagingEnds(meta1, meta2, subscriptions, search);
    r := Summarise(channel1Data, channel2Data, subs1.value, subs2.value, views1.value, views2.value);
    assert r.Success? ==> Reports(meta1, meta2, subscriptions, search, statistics, r.value);
  }
}
