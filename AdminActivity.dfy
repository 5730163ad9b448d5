/**
  The second copy of the admin activity figures (components/admin-activity.tsx). It
  computes what lib/utils/admin-analytics.ts computes; the only textual differences are
  the `|| 0` defaults of the admin counts, which agree with `?? 0` on counts, and the
  log row of `trackAdminAction`, which is `AdminAnalytics.TrackedRow`. The counting
  itself is `AdminAnalytics.Tally`.
*/
module AdminActivity {
  import opened Common
  import opened AdminAnalytics

  /** `count || 0`: a missing count, and a zero count, give 0. */
  function CountOrZero(count: Option<nat>): (r: nat)
    ensures count.None? ==> r == 0
    ensures count.Some? ==> r == count.value
  {
    if count.Some? && count.value != 0 then count.value else 0
  }

  /** `getAdminActivityStats` of this file. */
  method GetActivityStats(data: Option<seq<LogEntry>>) returns (stats: ActivityStats)
    ensures data.None? ==> stats == ActivityStats(0, map[], [])
    ensures data.Some? ==> stats.totalActions == |data.value|
    ensures data.Some? ==> forall a :: a in stats.actionsByType <==> a in Actions(data.value)
    ensures data.Some? ==> forall a :: a in stats.actionsByType ==>
              stats.actionsByType[a] == multiset(Actions(data.value))[a]
    ensures data.Some? ==> MapSum(stats.actionsByType) == stats.totalActions
    ensures data.Some? ==> stats.recentActivity == data.value[..Min(RecentLimit, |data.value|)]
  {
    if data.None? {
      return ActivityStats(0, map[], []);
    }
    var entries := data.value;
    var actionsByType := Tally(Actions(entries));
    stats := ActivityStats(|entries|, actionsByType, JsSlice(entries, 0, RecentLimit));
  }

  /** `getSystemStats` of this file. */
  method GetSystemFigures(totalAdminsCount: Option<nat>, activeAdminsCount: Option<nat>, activityData: Option<seq<LogEntry>>)
    returns (stats: SystemStats)
    ensures stats.totalAdmins == (if totalAdminsCount.Some? then totalAdminsCount.value else 0)
    ensures stats.activeAdmins == (if activeAdminsCount.Some? then activeAdminsCount.value else 0)
    ensures activityData.None? ==> stats.activityByDay == map[] && stats.totalActivities == 0
    ensures activityData.Some? ==> stats.totalActivities == |activityData.value|
    ensures activityData.Some? ==> forall d :: d in stats.activityByDay ==>
              stats.activityByDay[d] == multiset(Days(activityData.value))[d]
    ensures activityData.Some? ==> forall d :: d in stats.activityByDay <==> d in Days(activityData.value)
    ensures MapSum(stats.activityByDay) == stats.totalActivities
  {
    var activityByDay: map<int, nat> := map[];
    if activityData.Some? {
      activityByDay := Tally(Days(activityData.value));
    }
    stats := SystemStats(CountOrZero(totalAdminsCount), CountOrZero(activeAdminsCount), activityByDay,
                         if activityData.Some? then |activityData.value| else 0);
  }
}
