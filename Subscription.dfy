/**
  The subscription page (components/subscription/subscription-client.tsx): the plans of
  the selected billing interval, whether the user is subscribed and to which plan, the
  label of each plan's button, subscribing to the selected plan and cancelling at the end
  of the period. The signed-in user, the clock and the outcome of each database write are
  parameters; the payment step is a fixed delay in the source and is not modelled.
*/
module Subscription {
  import opened Common

  const NoPlanSelectedMessage: string := "لطفاً یک طرح اشتراک انتخاب کنید"
  const NotSignedInMessage: string := "کاربر احراز هویت نشده است"
  const PlanNotFoundMessage: string := "طرح اشتراک یافت نشد"
  const SubscribedMessage: string := "اشتراک با موفقیت فعال شد"
  const CancelledMessage: string := "اشتراک شما در پایان دوره فعلی لغو خواهد شد"

  const CurrentPlanLabel: string := "اشتراک فعلی شما"
  const SwitchPlanLabel: string := "تغییر به این طرح"
  const ChoosePlanLabel: string := "انتخاب این طرح"

  datatype Interval = MonthInterval | YearInterval

  datatype Plan = Plan(id: string, name: string, description: string, price: int, interval: Interval,
                       features: seq<string>)

  /** A subscription row; times are in milliseconds. */
  datatype Sub = Sub(
    id: string,
    userId: string,
    planId: string,
    status: string,
    currentPeriodStart: int,
    currentPeriodEnd: int,
    cancelAtPeriodEnd: bool,
    createdAt: int,
    updatedAt: int)

  // ---------------------------------------------------------------------------
  // what the page shows

  predicate HasInterval(plan: Plan, interval: Interval) { plan.interval == interval }

  /** `filteredPlans`: exactly the plans of the selected interval, in their order. */
  function FilteredPlans(plans: seq<Plan>, interval: Interval): (r: seq<Plan>)
    ensures forall p :: p in r <==> p in plans && p.interval == interval
    ensures |r| <= |plans|
  {
    FilterMembers(plans, p => HasInterval(p, interval));
    Filter(plans, p => HasInterval(p, interval))
  }

  /** Every plan is shown under exactly one of the two tabs. */
  lemma TabsPartitionPlans(plans: seq<Plan>)
    ensures |FilteredPlans(plans, MonthInterval)| + |FilteredPlans(plans, YearInterval)| == |plans|
  {
    CountComplement(plans, p => HasInterval(p, YearInterval), p => HasInterval(p, MonthInterval));
  }

  /** `isSubscribed`: there is a subscription and its status is "active". */
  function IsSubscribed(subscription: Option<Sub>): (b: bool)
    ensures b ==> subscription.Some?
  {
    subscription.Some? && subscription.value.status == "active"
  }

  /** `currentPlan`: looked up by the subscription's plan id, and only when subscribed. */
  function CurrentPlan(subscription: Option<Sub>, plans: seq<Plan>): (r: Option<Plan>)
    ensures !IsSubscribed(subscription) ==> r.None?
    ensures r.Some? ==> r.value in plans && r.value.id == subscription.value.planId
    ensures (IsSubscribed(subscription) && exists k :: 0 <= k < |plans| && plans[k].id == subscription.value.planId)
              ==> r.Some?
  {
    if IsSubscribed(subscription) then Find(plans, (p: Plan) => p.id == subscription.value.planId) else None
  }

  /** The label of a plan's button. A subscription to a plan that is no longer offered
      has no current plan, so every plan reads "switch". */
  function PlanButtonLabel(subscription: Option<Sub>, plans: seq<Plan>, plan: Plan): (r: string)
    ensures r == CurrentPlanLabel || r == SwitchPlanLabel || r == ChoosePlanLabel
    ensures r == ChoosePlanLabel <==> !IsSubscribed(subscription)
    ensures r == CurrentPlanLabel ==> IsSubscribed(subscription) && plan.id == subscription.value.planId
  {
    if IsSubscribed(subscription) then
      var current := CurrentPlan(subscription, plans);
      if current.Some? && current.value.id == plan.id then CurrentPlanLabel else SwitchPlanLabel
    else ChoosePlanLabel
  }

  /** "Current plan" exactly for the plan subscribed to, "switch" for the other plans of
      a subscriber, "choose" for everyone else. */
  lemma PlanButtonLabels(subscription: Option<Sub>, plans: seq<Plan>, plan: Plan)
    requires plan in plans
    ensures PlanButtonLabel(subscription, plans, plan) == CurrentPlanLabel <==>
              IsSubscribed(subscription) && plan.id == subscription.value.planId
    ensures PlanButtonLabel(subscription, plans, plan) == SwitchPlanLabel <==>
              IsSubscribed(subscription) && plan.id != subscription.value.planId
    ensures PlanButtonLabel(subscription, plans, plan) == ChoosePlanLabel <==> !IsSubscribed(subscription)
  {
    if IsSubscribed(subscription) && plan.id == subscription.value.planId {
      var k :| 0 <= k < |plans| && plans[k] == plan;
      assert plans[k].id == subscription.value.planId;
    }
  }

  /** The footer of the subscription card. */
  datatype CancelControl = CancellingShown | CancelButton(enabled: bool)

  /** A subscription already set to cancel shows a disabled notice; otherwise the cancel
      button is offered, enabled unless a request is running. */
  function CancelControlOf(subscription: Sub, isLoading: bool): (r: CancelControl)
    ensures r.CancelButton? <==> !subscription.cancelAtPeriodEnd
    ensures r.CancelButton? ==> (r.enabled <==> !isLoading)
  {
    if subscription.cancelAtPeriodEnd then CancellingShown else CancelButton(!isLoading)
  }

  // ---------------------------------------------------------------------------
  // the writes

  /** The length of the new period; the calendar arithmetic of `setMonth` and
      `setFullYear` is not modelled. */
  datatype Term = OneMonth | OneYear

  function TermOf(interval: Interval): (t: Term)
    ensures interval == MonthInterval <==> t == OneMonth
  {
    if interval == MonthInterval then OneMonth else OneYear
  }

  /** `subscriptionData`: the new period starts now and runs for `term`. */
  datatype SubscriptionData = SubscriptionData(planId: string, status: string, currentPeriodStart: int, term: Term,
                                               cancelAtPeriodEnd: bool, updatedAt: int)

  /** An existing subscription is updated in place; otherwise a new one is inserted for
      the user. */
  datatype SubscribeWrite =
    | UpdateSubscription(subscriptionId: string, data: SubscriptionData)
    | InsertSubscription(data: SubscriptionData, userId: string, createdAt: int)

  /** The only fields a cancellation writes. */
  datatype CancelUpdate = CancelUpdate(subscriptionId: string, cancelAtPeriodEnd: bool, updatedAt: int)

  /** The row after a cancellation. */
  function Cancelled(s: Sub, u: CancelUpdate): Sub
  {
    s.(cancelAtPeriodEnd := u.cancelAtPeriodEnd, updatedAt := u.updatedAt)
  }

  /** The page's state. */
  class SubscriptionView {
    var selectedInterval: Interval
    var isLoading: bool
    var selectedPlan: Option<string>

    constructor()
      ensures selectedInterval == MonthInterval && !isLoading && selectedPlan.None?
    {
      selectedInterval := MonthInterval;
      isLoading := false;
      selectedPlan := None;
    }

    method SelectInterval(interval: Interval)
      modifies this`selectedInterval
      ensures selectedInterval == interval
    {
      selectedInterval := interval;
    }

    /** `handleSelectPlan`. */
    method HandleSelectPlan(planId: string)
      modifies this`selectedPlan
      ensures selectedPlan == Some(planId)
    {
      selectedPlan := Some(planId);
    }

    /** `handleSubscribe`. `user` is the signed-in user's id (`None` when there is none),
        `now` the clock and `writeError` the error of the update or insert, if any. It
        returns the write it asks for, if it gets that far, and the message shown. An
        empty plan id counts as no selection, as the falsy test in the source does. */
    method HandleSubscribe(subscription: Option<Sub>, plans: seq<Plan>, user: Option<string>, now: int,
                           writeError: Option<string>)
      returns (write: Option<SubscribeWrite>, message: string)
      modifies this`isLoading
      ensures selectedPlan.None? || selectedPlan == Some("") ==>
                write.None? && message == NoPlanSelectedMessage && isLoading == old(isLoading)
      ensures selectedPlan.Some? && selectedPlan != Some("") ==> !isLoading
      ensures selectedPlan.Some? && selectedPlan != Some("") && user.None? ==>
                write.None? && message == NotSignedInMessage
      ensures selectedPlan.Some? && selectedPlan != Some("") && user.Some? &&
              (forall k :: 0 <= k < |plans| ==> plans[k].id != selectedPlan.value) ==>
                write.None? && message == PlanNotFoundMessage
      ensures write.Some? ==>
                && user.Some? && selectedPlan.Some?
                && (exists k :: 0 <= k < |plans| && plans[k].id == selectedPlan.value
                      && write.value.data == SubscriptionData(selectedPlan.value, "active", now,
                                                              TermOf(plans[k].interval), false, now))
                && (subscription.Some? ==> write.value == UpdateSubscription(subscription.value.id, write.value.data))
                && (subscription.None? ==> write.value == InsertSubscription(write.value.data, user.value, now))
                && message == (if writeError.Some? then writeError.value else SubscribedMessage)
      ensures (selectedPlan.Some? && selectedPlan != Some("") && user.Some? &&
               exists k :: 0 <= k < |plans| && plans[k].id == selectedPlan.value) ==> write.Some?
    {
      if selectedPlan.None? || selectedPlan == Some("") {
        return None, NoPlanSelectedMessage;
      }
      isLoading := true;
      var planId := selectedPlan.value;
      if user.None? {
        write, message := None, NotSignedInMessage;
      } else {
        var selectedPlanData := Find(plans, (p: Plan) => p.id == planId);
        if selectedPlanData.None? {
          write, message := None, PlanNotFoundMessage;
        } else {
          var data := SubscriptionData(planId, "active", now, TermOf(selectedPlanData.value.interval), false, now);
          if subscription.Some? {
            write := Some(UpdateSubscription(subscription.value.id, data));
          } else {
            write := Some(InsertSubscription(data, user.value, now));
          }
          message := if writeError.Some? then writeError.value else SubscribedMessage;
        }
      }
      isLoading := false;
    }

    /** `handleCancelSubscription`: nothing at all without a subscription; otherwise it
        asks to set only `cancelAtPeriodEnd` and `updatedAt`. */
    method HandleCancelSubscription(subscription: Option<Sub>, now: int, writeError: Option<string>)
      returns (update: Option<CancelUpdate>, message: Option<string>)
      modifies this`isLoading
      ensures subscription.None? ==> update.None? && message.None? && isLoading == old(isLoading)
      ensures subscription.Some? ==>
                && update == Some(CancelUpdate(subscription.value.id, true, now))
                && message == Some(if writeError.Some? then writeError.value else CancelledMessage)
                && !isLoading
    {
      if subscription.None? {
        return None, None;
      }
      isLoading := true;
      update := Some(CancelUpdate(subscription.value.id, true, now));
      message := Some(if writeError.Some? then writeError.value else CancelledMessage);
      isLoading := false;
    }
  }

  /** A cancellation keeps the plan and the period: the subscription stays active until
      its end, it is marked to cancel there, and no other field changes. */
  lemma CancelKeepsPeriod(s: Sub, now: int)
    ensures var c := Cancelled(s, CancelUpdate(s.id, true, now));
      && c.cancelAtPeriodEnd && c.updatedAt == now
      && c.(cancelAtPeriodEnd := s.cancelAtPeriodEnd, updatedAt := s.updatedAt) == s
      && IsSubscribed(Some(c)) == IsSubscribed(Some(s))
      && CancelControlOf(c, false) == CancellingShown
  {
  }
}
