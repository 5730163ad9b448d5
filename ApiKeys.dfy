/**
  The API key page of the admin dashboard (app/admin-secure-dashboard-xyz123/api-keys/page.tsx):
  loading the keys, generating one, saving the Gemini key, deleting a key and the
  relative-time text of the key table. The database and the key endpoint are outside
  the model: their answers are parameters.
*/
module ApiKeys {
  import opened Common

  const MinuteMillis: int := 1000 * 60
  const HourMillis: int := 1000 * 60 * 60
  const DayMillis: int := 1000 * 60 * 60 * 24

  const NeverText: string := "هرگز"
  const JustNowText: string := "همین الان"

  /** A date column as `new Date(s)` reads it: null or empty, not a date, or a time in
      milliseconds. */
  datatype Stamp = NoDate | BadDate | At(ms: int)

  datatype ApiKey = ApiKey(
    id: string,
    name: string,
    key: string,
    keyType: string,
    createdAt: Stamp,
    lastUsedAt: Stamp,
    isActive: bool)

  // ---------------------------------------------------------------------------
  // formatRelativeTime

  /** The unit `formatRelativeTime` picks for a time difference. */
  datatype Ago = DaysAgo(days: int) | HoursAgo(hours: int) | MinutesAgo(minutes: int) | JustNow

  /** Whole days if at least one, else whole hours if at least one, else whole minutes
      if at least one, else "just now". */
  function AgoOf(diffMs: int): (a: Ago)
    ensures a.DaysAgo? <==> diffMs >= DayMillis
    ensures a.HoursAgo? <==> HourMillis <= diffMs < DayMillis
    ensures a.MinutesAgo? <==> MinuteMillis <= diffMs < HourMillis
    ensures a.JustNow? <==> diffMs < MinuteMillis
  {
    var diffDays := diffMs / DayMillis;
    var diffHours := diffMs / HourMillis;
    var diffMinutes := diffMs / MinuteMillis;
    if diffDays > 0 then DaysAgo(diffDays)
    else if diffHours > 0 then HoursAgo(diffHours)
    else if diffMinutes > 0 then MinutesAgo(diffMinutes)
    else JustNow
  }

  /** The number shown is the count of whole units elapsed. */
  lemma AgoRanges(diffMs: int)
    ensures AgoOf(diffMs).DaysAgo? ==>
              var n := AgoOf(diffMs).days; n >= 1 && n * DayMillis <= diffMs < (n + 1) * DayMillis
    ensures AgoOf(diffMs).HoursAgo? ==>
              var n := AgoOf(diffMs).hours; 1 <= n < 24 && n * HourMillis <= diffMs < (n + 1) * HourMillis
    ensures AgoOf(diffMs).MinutesAgo? ==>
              var n := AgoOf(diffMs).minutes; 1 <= n < 60 && n * MinuteMillis <= diffMs < (n + 1) * MinuteMillis
  {
  }

  const DaysSuffix: string := " روز پیش"
  const HoursSuffix: string := " ساعت پیش"
  const MinutesSuffix: string := " دقیقه پیش"

  /** The text is a number followed by the unit's suffix, and the number reads back as
      `n`. */
  predicate ReadsBack(r: string, suffix: string, n: int)
  {
    |r| > |suffix| && r[|r| - |suffix|..] == suffix && ParseNat(r[..|r| - |suffix|]) == n
  }

  /** A number and its unit, `${n} روز پیش` and so on; the number reads back from the
      text for every unit. */
  function AgoText(a: Ago): (r: string)
    ensures a.DaysAgo? && a.days >= 0 ==> ReadsBack(r, DaysSuffix, a.days)
    ensures a.HoursAgo? && a.hours >= 0 ==> ReadsBack(r, HoursSuffix, a.hours)
    ensures a.MinutesAgo? && a.minutes >= 0 ==> ReadsBack(r, MinutesSuffix, a.minutes)
    ensures a.JustNow? ==> r == JustNowText
    ensures r != NeverText
  {
    assert NeverText[|NeverText| - 1] != JustNowText[|JustNowText| - 1];
    match a
    case DaysAgo(n) => UnitText(n, DaysSuffix)
    case HoursAgo(n) => UnitText(n, HoursSuffix)
    case MinutesAgo(n) => UnitText(n, MinutesSuffix)
    case JustNow => JustNowText
  }

  /** `${n}` and the suffix; a negative `n` cannot arise from `AgoOf`. */
  function UnitText(n: int, suffix: string): (r: string)
    requires suffix != []
    ensures n >= 0 ==> ReadsBack(r, suffix, n)
    ensures r != [] && r[|r| - 1] == suffix[|suffix| - 1]
  {
    if n >= 0 then
      NatStrRoundTrip(n);
      var r := NatStr(n) + suffix;
      assert r[..|r| - |suffix|] == NatStr(n);
      assert r[|r| - |suffix|..] == suffix;
      r
    else suffix
  }

  /** `formatRelativeTime` at time `now`: a missing date is "never"; an invalid one makes
      every difference `NaN`, so every test fails and the text is "just now". */
  function FormatRelativeTime(date: Stamp, now: int): (r: string)
    ensures date.NoDate? <==> r == NeverText
    ensures date.BadDate? ==> r == JustNowText
    ensures date.At? ==> r == AgoText(AgoOf(now - date.ms))
  {
    match date
    case NoDate => NeverText
    case BadDate => JustNowText
    case At(ms) => AgoText(AgoOf(now - ms))
  }

  // ---------------------------------------------------------------------------
  // the page

  /** The body of the request `handleGenerateKey` posts. */
  datatype GenerateRequest = GenerateRequest(name: string, keyType: string)

  /** The row `handleSaveGeminiKey` upserts. */
  datatype GeminiRow = GeminiRow(name: string, key: string, keyType: string)

  function KeyId(k: ApiKey): string { k.id }

  class ApiKeysPage {
    var isGenerating: bool
    var geminiApiKey: string
    var apiKeys: seq<ApiKey>
    var isLoading: bool

    constructor()
      ensures !isGenerating && geminiApiKey == "" && apiKeys == [] && isLoading
    {
      isGenerating := false;
      geminiApiKey := "";
      apiKeys := [];
      isLoading := true;
    }

    /** `fetchApiKeys`: the rows (newest first) replace the list; a failed query keeps
        it. Loading ends either way. */
    method FetchApiKeys(outcome: Option<seq<ApiKey>>)
      modifies this`apiKeys, this`isLoading
      ensures apiKeys == if outcome.Some? then outcome.value else old(apiKeys)
      ensures !isLoading
    {
      isLoading := true;
      if outcome.Some? {
        apiKeys := outcome.value;
      }
      isLoading := false;
    }

    /** `handleGenerateKey`, with the endpoint's answer as `response` (`None` when the
        request fails): the new key goes in front of the list. */
    method HandleGenerateKey(response: Option<ApiKey>) returns (request: GenerateRequest)
      modifies this`apiKeys, this`isGenerating
      ensures request == GenerateRequest("API Key", "custom")
      ensures apiKeys == if response.Some? then [response.value] + old(apiKeys) else old(apiKeys)
      ensures !isGenerating
    {
      isGenerating := true;
      request := GenerateRequest("API Key", "custom");
      if response.Some? {
        apiKeys := [response.value] + apiKeys;
      }
      isGenerating := false;
    }

    /** `handleSaveGeminiKey`: the row it upserts; the list is not touched. */
    method HandleSaveGeminiKey() returns (row: GeminiRow)
      ensures row == GeminiRow("Gemini API Key", geminiApiKey, "gemini")
    {
      row := GeminiRow("Gemini API Key", geminiApiKey, "gemini");
    }

    /** `handleDeleteKey`, with the outcome of the delete as `deleted`. */
    method HandleDeleteKey(id: string, deleted: bool)
      modifies this`apiKeys
      ensures apiKeys == if deleted then RemoveKey(old(apiKeys), KeyId, id) else old(apiKeys)
    {
      if deleted {
        apiKeys := RemoveKey(apiKeys, KeyId, id);
      }
    }
  }

  /** Deleting a key removes exactly the keys with that id; deleting a key that was just
      generated, with an id no other key has, gives back the list from before. */
  lemma GenerateThenDelete(keys: seq<ApiKey>, k: ApiKey)
    ensures forall x :: x in RemoveKey(keys, KeyId, k.id) <==> x in keys && x.id != k.id
    ensures (forall j :: 0 <= j < |keys| ==> keys[j].id != k.id) ==> RemoveKey([k] + keys, KeyId, k.id) == keys
  {
    RemoveKeyAppend([k], keys, KeyId, k.id);
    RemoveKeyProperties(keys, KeyId, k.id);
    assert RemoveKey([k], KeyId, k.id) == [];
  }
}
