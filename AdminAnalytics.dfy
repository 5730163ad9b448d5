/**
  The admin activity figures (lib/utils/admin-analytics.ts): the log row written for an
  admin action, one admin's activity (total, count per action, the ten most recent
  entries) and the system figures (admins, active admins, activity per day). The
  database queries are outside the model: their rows, counts and errors are parameters.
*/
module AdminAnalytics {
  import opened Common

  const DayMillis: int := 24 * 60 * 60 * 1000
  const RecentLimit: nat := 10

  /** An entry of `admin_activity_logs` as the queries select it; `createdAt` is the
      time in milliseconds. */
  datatype LogEntry = LogEntry(action: string, createdAt: int)

  /** What `trackAdminAction` is given. */
  datatype AdminAction = AdminAction(
    action: string,
    adminId: string,
    details: map<string, string>,
    targetId: Option<string>,
    targetType: Option<string>)

  /** The row `trackAdminAction` inserts. */
  datatype LogRow = LogRow(
    action: string,
    adminId: string,
    details: map<string, string>,
    targetId: Option<string>,
    targetType: Option<string>,
    createdAt: int)

  /** The inserted row carries the action as given, stamped with the current time; a
      failed insert is only logged, so nothing else depends on it. */
  function TrackedRow(a: AdminAction, now: int): (r: LogRow)
    ensures r.action == a.action && r.adminId == a.adminId && r.details == a.details
    ensures r.targetId == a.targetId && r.targetType == a.targetType && r.createdAt == now
  {
    LogRow(a.action, a.adminId, a.details, a.targetId, a.targetType, now)
  }

  // ---------------------------------------------------------------------------
  // counting with a `Record<string, number>` accumulator (the sum of its counts is
  // `Common.MapSum`)

  /** `acc` counts the keys of `s`. */
  ghost predicate Counts<K(!new)>(s: seq<K>, acc: map<K, nat>)
  {
    && (forall k :: k in acc <==> k in s)
    && (forall k :: k in acc ==> acc[k] == multiset(s)[k])
    && MapSum(acc) == |s|
  }

  /** One more key counted. */
  lemma CountsStep<K(!new)>(s: seq<K>, key: K, acc: map<K, nat>)
    requires Counts(s, acc)
    ensures Counts(s + [key], acc[key := (if key in acc then acc[key] else 0) + 1])
  {
    var acc' := acc[key := (if key in acc then acc[key] else 0) + 1];
    CountedKeys(s, key, acc, acc');
    CountedCounts(s, key, acc, acc');
    MapSumIncrement(acc, key);
  }

  /** The `reduce` that counts how often each key occurs. */
  method Tally<K(!new)>(keys: seq<K>) returns (acc: map<K, nat>)
    ensures forall k :: k in acc <==> k in keys
    ensures forall k :: k in acc ==> acc[k] == multiset(keys)[k]
    ensures MapSum(acc) == |keys|
  {
    acc := map[];
    for i := 0 to |keys|
      invariant Counts(keys[..i], acc)
    {
      var key := keys[i];
      CountsStep(keys[..i], key, acc);
      acc := acc[key := (if key in acc then acc[key] else 0) + 1];
      assert keys[..i + 1] == keys[..i] + [key];
    }
    assert keys[..|keys|] == keys;
  }

  lemma CountedKeys<K>(prefix: seq<K>, key: K, acc: map<K, nat>, acc': map<K, nat>)
    requires forall k :: k in acc <==> k in prefix
    requires acc' == acc[key := (if key in acc then acc[key] else 0) + 1]
    ensures forall k :: k in acc' <==> k in prefix + [key]
  {
  }

  lemma CountedCounts<K>(prefix: seq<K>, key: K, acc: map<K, nat>, acc': map<K, nat>)
    requires forall k :: k in acc <==> k in prefix
    requires forall k :: k in acc ==> acc[k] == multiset(prefix)[k]
    requires acc' == acc[key := (if key in acc then acc[key] else 0) + 1]
    ensures forall k :: k in acc' ==> acc'[k] == multiset(prefix + [key])[k]
  {
    assert multiset(prefix + [key]) == multiset(prefix) + multiset{key};
  }

  function Actions(data: seq<LogEntry>): (r: seq<string>)
    ensures |r| == |data|
    ensures forall i :: 0 <= i < |data| ==> r[i] == data[i].action
  {
    seq(|data|, i requires 0 <= i < |data| => data[i].action)
  }

  /** The UTC day of a time, standing for `toISOString().split('T')[0]`. */
  function DayOf(createdAt: int): int
  {
    createdAt / DayMillis
  }

  function Days(data: seq<LogEntry>): (r: seq<int>)
    ensures |r| == |data|
    ensures forall i :: 0 <= i < |data| ==> r[i] == DayOf(data[i].createdAt)
  {
    seq(|data|, i requires 0 <= i < |data| => DayOf(data[i].createdAt))
  }

  datatype ActivityStats = ActivityStats(totalActions: nat, actionsByType: map<string, nat>, recentActivity: seq<LogEntry>)

  /** `getAdminActivityStats`, with the rows of the query (newest first) or `None` when
      it failed. A failure gives zero, no counts and no recent entries. */
  method GetAdminActivityStats(data: Option<seq<LogEntry>>) returns (stats: ActivityStats)
    ensures data.None? ==> stats == ActivityStats(0, map[], [])
    ensures data.Some? ==> stats.totalActions == |data.value|
    ensures data.Some? ==> forall a :: a in stats.actionsByType <==> a in Actions(data.value)
    ensures data.Some? ==> forall a :: a in stats.actionsByType ==>
              stats.actionsByType[a] == multiset(Actions(data.value))[a]
    ensures data.Some? ==> MapSum(stats.actionsByType) == stats.totalActions
    ensures data.Some? ==> stats.recentActivity == data.value[..Min(RecentLimit, |data.value|)]
  {
    if data.None? {
      return ActivityStats(0, map[], []);
    }
    var actionsByType := Tally(Actions(data.value));
    stats := ActivityStats(|data.value|, actionsByType, JsSlice(data.value, 0, RecentLimit));
  }

  datatype SystemStats = SystemStats(totalAdmins: nat, activeAdmins: nat, activityByDay: map<int, nat>, totalActivities: nat)

  /** `getSystemStats`, with the two admin counts and the activity rows of the last
      thirty days as parameters; missing counts and missing rows count as zero. */
  method GetSystemStats(totalAdminsCount: Option<nat>, activeAdminsCount: Option<nat>, activityData: Option<seq<LogEntry>>)
    returns (stats: SystemStats)
    ensures stats.totalAdmins == (if totalAdminsCount.Some? then totalAdminsCount.value else 0)
    ensures stats.activeAdmins == (if activeAdminsCount.Some? then activeAdminsCount.value else 0)
    ensures activityData.None? ==> stats.activityByDay == map[] && stats.totalActivities == 0
    ensures activityData.Some? ==> stats.totalActivities == |activityData.value|
    ensures activityData.Some? ==> forall d :: d in stats.activityByDay ==>
              stats.activityByDay[d] == multiset(Days(activityData.value))[d]
    ensures activityData.Some? ==> forall d :: d in stats.activityByDay <==> d in Days(activityData.value)
    ensures MapSum(stats.activityByDay) == stats.totalActivities
  {
    var totalAdmins := if totalAdminsCount.Some? then totalAdminsCount.value else 0;
    var activeAdmins := if activeAdminsCount.Some? then activeAdminsCount.value else 0;
    var activityByDay: map<int, nat> := map[];
    if activityData.Some? {
      activityByDay := Tally(Days(activityData.value));
    }
    var totalActivities := if activityData.Some? then |activityData.value| else 0;
    stats := SystemStats(totalAdmins, activeAdmins, activityByDay, totalActivities);
  }

  /** A tracked action is one more entry of its kind in the next count, and nothing else
      changes. */
  lemma TrackedActionCounted(data: seq<LogEntry>, a: AdminAction, now: int)
    ensures var r := TrackedRow(a, now);
      && multiset(Actions(data + [LogEntry(r.action, r.createdAt)]))[a.action] == multiset(Actions(data))[a.action] + 1
      && forall b :: b != a.action ==>
           multiset(Actions(data + [LogEntry(r.action, r.createdAt)]))[b] == multiset(Actions(data))[b]
  {
    var r := TrackedRow(a, now);
    assert Actions(data + [LogEntry(r.action, r.createdAt)]) == Actions(data) + [a.action];
  }
}
