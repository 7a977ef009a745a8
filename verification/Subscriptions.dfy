/**
 Subscription webhooks on one tenant's row. Events come in any order and more than once; the row
 takes an event only if it is at least as new as the last one taken.
 */
module Subscriptions {
  import opened Options

  datatype Row = Row(
    customer: Option<string>, subscription: Option<string>, status: Option<string>, periodEnd: Option<int>,
    cancelAtPeriodEnd: bool, plan: string, tokenLimit: Option<nat>, lastEventAt: Option<int>)

  /** `planKey` is the plan the event's price stands for, if there is one. */
  datatype Event =
    | CheckoutCompleted(created: int, customer: Option<string>, subscription: Option<string>, planKey: Option<string>)
    | SubscriptionChanged(created: int, id: string, status: string, periodEnd: Option<int>, cancel: bool, planKey: Option<string>)
    | SubscriptionDeleted(created: int)

  /** The plans and their monthly token limits; no limit means unlimited. */
  type Plans = map<string, Option<nat>>

  const TRIAL := "trial"

  function Coalesce<T>(a: Option<T>, b: Option<T>): Option<T> {
    if a.Some? then a else b
  }

  function LimitOf(plans: Plans, key: string): Option<nat> {
    if key in plans then plans[key] else None
  }

  function PlanAfter(r: Row, planKey: Option<string>): string {
    if planKey.Some? then planKey.value else r.plan
  }

  /** The row once the event is taken. */
  function Take(plans: Plans, r: Row, e: Event): Row {
    match e
    case CheckoutCompleted(at, customer, subscription, planKey) =>
      Row(Coalesce(customer, r.customer), Coalesce(subscription, r.subscription), r.status, r.periodEnd, r.cancelAtPeriodEnd,
          PlanAfter(r, planKey), Coalesce(LimitOf(plans, PlanAfter(r, planKey)), r.tokenLimit), Some(at))
    case SubscriptionChanged(at, id, status, periodEnd, cancel, planKey) =>
      Row(r.customer, Some(id), Some(status), periodEnd, cancel,
          PlanAfter(r, planKey), Coalesce(LimitOf(plans, PlanAfter(r, planKey)), r.tokenLimit), Some(at))
    case SubscriptionDeleted(at) =>
      r.(status := Some("canceled"), cancelAtPeriodEnd := false, plan := TRIAL,
         tokenLimit := Coalesce(LimitOf(plans, TRIAL), r.tokenLimit), lastEventAt := Some(at))
  }

  predicate IsNew(r: Row, e: Event) {
    r.lastEventAt.None? || r.lastEventAt.value <= e.created
  }

  /** The row, and the audit trail of the events it took. */
  datatype Ledger = Ledger(row: Row, audit: seq<Event>)

  function Apply(plans: Plans, l: Ledger, e: Event): Ledger {
    if IsNew(l.row, e) then Ledger(Take(plans, l.row, e), l.audit + [e]) else l
  }

  function Deliver(plans: Plans, l: Ledger, es: seq<Event>): Ledger {
    if es == [] then l else Apply(plans, Deliver(plans, l, es[..|es| - 1]), es[|es| - 1])
  }

  // ---------- What every delivery keeps ----------

  /** The last event's time never goes back. */
  lemma {:induction false} TimeNeverGoesBack(plans: Plans, l: Ledger, es: seq<Event>)
    ensures l.row.lastEventAt.Some? ==>
              var r := Deliver(plans, l, es).row;
              r.lastEventAt.Some? && r.lastEventAt.value >= l.row.lastEventAt.value
    ensures forall e | e in es :: var r := Deliver(plans, l, es).row; r.lastEventAt.Some? && r.lastEventAt.value >= e.created
  {
    if es != [] {
      TimeNeverGoesBack(plans, l, es[..|es| - 1]);
      assert es == es[..|es| - 1] + [es[|es| - 1]];
    }
  }

  function TakeAll(plans: Plans, r: Row, es: seq<Event>): Row {
    if es == [] then r else Take(plans, TakeAll(plans, r, es[..|es| - 1]), es[|es| - 1])
  }

  /** The audit trail is the whole story: the row is what its events make of the first row, and they are in order of time. */
  lemma {:induction false} AuditExplainsTheRow(plans: Plans, r: Row, es: seq<Event>)
    ensures Explained(plans, r, Deliver(plans, Ledger(r, []), es))
  {
    if es != [] {
      AuditExplainsTheRow(plans, r, es[..|es| - 1]);
      ApplyExplains(plans, r, Deliver(plans, Ledger(r, []), es[..|es| - 1]), es[|es| - 1]);
    }
  }

  /** The row is what the audit's events make of `r`, and they are in order of time. */
  ghost predicate Explained(plans: Plans, r: Row, l: Ledger) {
    && l.row == TakeAll(plans, r, l.audit)
    && (forall i, j {:trigger l.audit[i], l.audit[j]} | 0 <= i < j < |l.audit| :: l.audit[i].created <= l.audit[j].created)
    && (l.audit != [] ==> l.row.lastEventAt == Some(l.audit[|l.audit| - 1].created))
  }

  lemma ApplyExplains(plans: Plans, r: Row, l: Ledger, e: Event)
    requires Explained(plans, r, l)
    ensures Explained(plans, r, Apply(plans, l, e))
  {
    assert (l.audit + [e])[..|l.audit|] == l.audit;
  }

  // ---------- Convergence ----------

  /** The event names a plan, or removes one, and that plan has a limit. */
  predicate Resolves(plans: Plans, e: Event) {
    if e.SubscriptionDeleted? then LimitOf(plans, TRIAL).Some?
    else e.planKey.Some? && LimitOf(plans, e.planKey.value).Some?
  }

  function PlanOf(e: Event): string
    requires e.SubscriptionDeleted? || e.planKey.Some?
  {
    if e.SubscriptionDeleted? then TRIAL else e.planKey.value
  }

  /** What a lifecycle event says of the subscription itself. */
  predicate Says(r: Row, e: Event) {
    match e
    case CheckoutCompleted(_, _, _, _) => true
    case SubscriptionChanged(_, id, status, periodEnd, cancel, _) => r.status == Some(status) && r.cancelAtPeriodEnd == cancel
    case SubscriptionDeleted(_) => r.status == Some("canceled") && !r.cancelAtPeriodEnd
  }

  /** The row shows this event: plan, limit and time, and for a lifecycle event status and cancellation. */
  predicate Shows(plans: Plans, r: Row, e: Event)
    requires Resolves(plans, e)
  {
    r.plan == PlanOf(e) && r.tokenLimit == LimitOf(plans, PlanOf(e)) && r.lastEventAt == Some(e.created) && Says(r, e)
  }

  /** Times are distinct: two events of one time are the same event delivered twice. */
  ghost predicate DistinctTimes(es: seq<Event>) {
    forall i, j {:trigger es[i], es[j]} | 0 <= i < |es| && 0 <= j < |es| && es[i].created == es[j].created :: es[i] == es[j]
  }

  ghost predicate Newest(es: seq<Event>, e: Event) {
    e in es && forall f | f in es :: f.created <= e.created
  }

  lemma TakenShows(plans: Plans, r: Row, e: Event)
    requires Resolves(plans, e)
    ensures Shows(plans, Take(plans, r, e), e)
  {
  }

  /** While `newest` has not come, it can still be taken; once it has, the row shows it. */
  lemma {:induction false} NewestIsShown(plans: Plans, l: Ledger, es: seq<Event>, newest: Event)
    requires Resolves(plans, newest) && IsNew(l.row, newest)
    requires forall f | f in es :: f.created <= newest.created && (f.created == newest.created ==> f == newest)
    ensures IsNew(Deliver(plans, l, es).row, newest)
    ensures newest in es ==> Shows(plans, Deliver(plans, l, es).row, newest)
  {
    if es != [] {
      var init, f := es[..|es| - 1], es[|es| - 1];
      assert es == init + [f];
      assert forall g | g in init :: g in es;
      NewestIsShown(plans, l, init, newest);
      if f == newest { TakenShows(plans, Deliver(plans, l, init).row, newest); }
    }
  }

  /**
   The newest event wins. In whatever order and however often the events come, plan, token limit and
   last-event time end as the newest event says; status and cancellation too if it is a lifecycle event.
   */
  lemma NewestWins(plans: Plans, l: Ledger, es: seq<Event>, newest: Event)
    requires Newest(es, newest) && DistinctTimes(es) && Resolves(plans, newest) && IsNew(l.row, newest)
    ensures Shows(plans, Deliver(plans, l, es).row, newest)
  {
    forall f | f in es && f.created == newest.created
      ensures f == newest
    {
      var i :| 0 <= i < |es| && es[i] == f;
      var j :| 0 <= j < |es| && es[j] == newest;
    }
    NewestIsShown(plans, l, es, newest);
  }

  /** Two deliveries of the same events agree on plan, limit and time, and, after a lifecycle event, on status and cancellation. */
  lemma DeliveriesAgree(plans: Plans, l: Ledger, a: seq<Event>, b: seq<Event>, newest: Event)
    requires (forall e :: e in a <==> e in b) && Newest(a, newest) && DistinctTimes(a) && DistinctTimes(b)
    requires Resolves(plans, newest) && IsNew(l.row, newest)
    ensures var r, s := Deliver(plans, l, a).row, Deliver(plans, l, b).row;
            && r.plan == s.plan && r.tokenLimit == s.tokenLimit && r.lastEventAt == s.lastEventAt
            && (!newest.CheckoutCompleted? ==> r.status == s.status && r.cancelAtPeriodEnd == s.cancelAtPeriodEnd)
  {
    NewestWins(plans, l, a, newest);
    NewestWins(plans, l, b, newest);
  }

  // ---------- When a status survives ----------

  /** Some occurrence of the event comes before every event newer than it. */
  ghost predicate InTime(es: seq<Event>, e: Event) {
    exists i :: 0 <= i < |es| && es[i] == e && NoneNewer(es[..i], e)
  }

  ghost predicate NoneNewer(es: seq<Event>, e: Event) {
    forall f | f in es :: f.created <= e.created
  }

  lemma InTimeSoFar(es: seq<Event>, f: Event, e: Event)
    ensures InTime(es + [f], e) <==> InTime(es, e) || (f == e && NoneNewer(es, e))
  {
    var all := es + [f];
    forall i | 0 <= i < |es| ensures all[i] == es[i] && all[..i] == es[..i] { }
    assert all[|es|] == f && all[..|es|] == es;
  }

  /** Until something newer has come the event can be taken, and it is taken exactly if it comes until then. */
  lemma {:induction false} TakenInTime(plans: Plans, r: Row, es: seq<Event>, e: Event)
    requires IsNew(r, e)
    ensures IsNew(Deliver(plans, Ledger(r, []), es).row, e) <==> NoneNewer(es, e)
    ensures e in Deliver(plans, Ledger(r, []), es).audit <==> InTime(es, e)
  {
    if es != [] {
      var init, f := es[..|es| - 1], es[|es| - 1];
      TakenInTime(plans, r, init, e);
      assert es == init + [f];
      InTimeSoFar(init, f, e);
    }
  }

  lemma {:induction false} StaleIsNeverTaken(plans: Plans, r: Row, es: seq<Event>, e: Event)
    requires !IsNew(r, e)
    ensures e !in Deliver(plans, Ledger(r, []), es).audit
  {
    if es != [] {
      StaleIsNeverTaken(plans, r, es[..|es| - 1], e);
      TimeNeverGoesBack(plans, Ledger(r, []), es[..|es| - 1]);
    }
  }

  /** The newest event of the subscription's own life; checkouts may be newer. */
  ghost predicate NewestLifecycle(es: seq<Event>, e: Event) {
    && !e.CheckoutCompleted?
    && forall f | f in es && !f.CheckoutCompleted? :: f == e || f.created < e.created
  }

  lemma {:induction false} TakenIsSaid(plans: Plans, l: Ledger, es: seq<Event>, e: Event)
    requires NewestLifecycle(es, e) && e !in l.audit
    ensures var d := Deliver(plans, l, es);
            e in d.audit ==> Says(d.row, e) && !IsOlder(d.row, e)
  {
    if es != [] {
      var init, f := es[..|es| - 1], es[|es| - 1];
      assert es == init + [f];
      TakenIsSaid(plans, l, init, e);
    }
  }

  /** The row's last event is older than `e`, or there is none. */
  predicate IsOlder(r: Row, e: Event) {
    r.lastEventAt.None? || r.lastEventAt.value < e.created
  }

  function Without(es: seq<Event>, e: Event): seq<Event> {
    if es == [] then []
    else if es[|es| - 1] == e then Without(es[..|es| - 1], e)
    else Without(es[..|es| - 1], e) + [es[|es| - 1]]
  }

  lemma {:induction false} UntakenIsUnsent(plans: Plans, l: Ledger, es: seq<Event>, e: Event)
    requires e !in Deliver(plans, l, es).audit
    ensures Deliver(plans, l, es) == Deliver(plans, l, Without(es, e))
  {
    if es != [] {
      var init, f := es[..|es| - 1], es[|es| - 1];
      UntakenIsUnsent(plans, l, init, e);
      if f != e {
        assert (Without(init, e) + [f])[..|Without(init, e)|] == Without(init, e);
      }
    }
  }

  /**
   When the status of the newest lifecycle event survives. If the row is not already past it and it comes at least
   once before every event newer than it, the row ends with what it says, whatever checkouts are newer; if it does not, the delivery ends as
   though it had never been sent. Which of the two depends on the order alone.
   */
  lemma StatusSurvives(plans: Plans, r: Row, es: seq<Event>, e: Event)
    requires NewestLifecycle(es, e)
    ensures var d, taken := Deliver(plans, Ledger(r, []), es), IsNew(r, e) && InTime(es, e);
            && (e in d.audit <==> taken)
            && (taken ==> Says(d.row, e))
            && (!taken ==> d == Deliver(plans, Ledger(r, []), Without(es, e)))
  {
    if IsNew(r, e) {
      TakenInTime(plans, r, es, e);
    } else {
      StaleIsNeverTaken(plans, r, es, e);
    }
    TakenIsSaid(plans, Ledger(r, []), es, e);
    if e !in Deliver(plans, Ledger(r, []), es).audit {
      UntakenIsUnsent(plans, Ledger(r, []), es, e);
    }
  }

  /**
   Where it does not hold: after a checkout that overtook its subscription's own event, the status the
   event carries is never taken.
   */
  lemma CheckoutHidesTheStatus(plans: Plans, r: Row, at: int, status: string, planKey: string)
    requires r.lastEventAt.None? && r.status.None?
    ensures var changed := SubscriptionChanged(at, "sub", status, None, false, Some(planKey));
            var checkout := CheckoutCompleted(at + 1, None, None, Some(planKey));
            && Deliver(plans, Ledger(r, []), [changed, checkout]).row.status == Some(status)
            && Deliver(plans, Ledger(r, []), [checkout, changed]).row.status == None
  {
    var changed := SubscriptionChanged(at, "sub", status, None, false, Some(planKey));
    var checkout := CheckoutCompleted(at + 1, None, None, Some(planKey));
    TwoDelivered(plans, Ledger(r, []), changed, checkout);
    TwoDelivered(plans, Ledger(r, []), checkout, changed);
  }

  /** The newest event that carries a period's end; deletions and checkouts may be newer. */
  ghost predicate NewestChange(es: seq<Event>, e: Event) {
    && e.SubscriptionChanged?
    && forall f | f in es && f.SubscriptionChanged? :: f == e || f.created < e.created
  }

  lemma {:induction false} TakenEndIsSaid(plans: Plans, l: Ledger, es: seq<Event>, e: Event)
    requires NewestChange(es, e) && e !in l.audit
    ensures var d := Deliver(plans, l, es);
            e in d.audit ==> d.row.periodEnd == e.periodEnd && !IsOlder(d.row, e)
  {
    if es != [] {
      var init, f := es[..|es| - 1], es[|es| - 1];
      assert es == init + [f];
      TakenEndIsSaid(plans, l, init, e);
    }
  }

  /** When the period's end survives: on the same condition, which a newer deletion that comes first breaks too. */
  lemma PeriodEndSurvives(plans: Plans, r: Row, es: seq<Event>, e: Event)
    requires NewestChange(es, e)
    ensures var d, taken := Deliver(plans, Ledger(r, []), es), IsNew(r, e) && InTime(es, e);
            && (e in d.audit <==> taken)
            && (taken ==> d.row.periodEnd == e.periodEnd)
            && (!taken ==> d == Deliver(plans, Ledger(r, []), Without(es, e)))
  {
    if IsNew(r, e) {
      TakenInTime(plans, r, es, e);
    } else {
      StaleIsNeverTaken(plans, r, es, e);
    }
    TakenEndIsSaid(plans, Ledger(r, []), es, e);
    if e !in Deliver(plans, Ledger(r, []), es).audit {
      UntakenIsUnsent(plans, Ledger(r, []), es, e);
    }
  }

  /** The period's end is not covered either: a deletion leaves whatever end the row had taken before. */
  lemma PeriodEndDependsOnOrder(plans: Plans, r: Row, at: int, end: int, planKey: string)
    requires r.lastEventAt.None? && r.periodEnd.None?
    ensures var changed := SubscriptionChanged(at, "sub", "active", Some(end), false, Some(planKey));
            && Deliver(plans, Ledger(r, []), [changed, SubscriptionDeleted(at + 1)]).row.periodEnd == Some(end)
            && Deliver(plans, Ledger(r, []), [SubscriptionDeleted(at + 1), changed]).row.periodEnd == None
  {
    var changed := SubscriptionChanged(at, "sub", "active", Some(end), false, Some(planKey));
    TwoDelivered(plans, Ledger(r, []), changed, SubscriptionDeleted(at + 1));
    TwoDelivered(plans, Ledger(r, []), SubscriptionDeleted(at + 1), changed);
  }

  lemma TwoDelivered(plans: Plans, l: Ledger, a: Event, b: Event)
    ensures Deliver(plans, l, [a, b]) == Apply(plans, Apply(plans, l, a), b)
  {
    assert [a, b][..1] == [a] && [a][..0] == [];
    assert Deliver(plans, l, [a]) == Apply(plans, Deliver(plans, l, []), a);
  }

  /** The tenant's row, and its columns as the route updates them. */
  class Tenant {
    var customer: Option<string>
    var subscription: Option<string>
    var status: Option<string>
    var periodEnd: Option<int>
    var cancelAtPeriodEnd: bool
    var plan: string
    var tokenLimit: Option<nat>
    var lastEventAt: Option<int>
    var audit: seq<Event>

    ghost function View(): Ledger
      reads this
    {
      Ledger(Row(customer, subscription, status, periodEnd, cancelAtPeriodEnd, plan, tokenLimit, lastEventAt), audit)
    }

    constructor (limit: Option<nat>)
      ensures View() == Ledger(Row(None, None, None, None, false, TRIAL, limit, None), [])
    {
      customer, subscription, status, periodEnd, cancelAtPeriodEnd := None, None, None, None, false;
      plan, tokenLimit, lastEventAt, audit := TRIAL, limit, None, [];
    }

    method MoveToPlan(plans: Plans, key: string)
      modifies this`plan, this`tokenLimit
      ensures plan == key && tokenLimit == Coalesce(LimitOf(plans, key), old(tokenLimit))
    {
      plan := key;
      if key in plans && plans[key].Some? { tokenLimit := plans[key]; }
    }

    /** Nothing is written, not even to the audit trail, for an event older than the last one taken. */
    method ApplyWebhookEvent(plans: Plans, e: Event)
      modifies this
      ensures View() == Apply(plans, old(View()), e)
    {
      if lastEventAt.Some? && lastEventAt.value > e.created { return; }
      match e {
        case CheckoutCompleted(at, c, s, planKey) =>
          if c.Some? { customer := c; }
          if s.Some? { subscription := s; }
          MoveToPlan(plans, if planKey.Some? then planKey.value else plan);
          lastEventAt := Some(at);
        case SubscriptionChanged(at, id, st, end, cancel, planKey) =>
          subscription, status, periodEnd, cancelAtPeriodEnd := Some(id), Some(st), end, cancel;
          MoveToPlan(plans, if planKey.Some? then planKey.value else plan);
          lastEventAt := Some(at);
        case SubscriptionDeleted(at) =>
          status, cancelAtPeriodEnd := Some("canceled"), false;
          MoveToPlan(plans, TRIAL);
          lastEventAt := Some(at);
      }
      audit := audit + [e];
    }
  }

  // ---------- Column by column ----------

  function CustomerOf(e: Event): Option<string> {
    if e.CheckoutCompleted? then e.customer else None
  }

  function SubscriptionOf(e: Event): Option<string> {
    match e
    case CheckoutCompleted(_, _, subscription, _) => subscription
    case SubscriptionChanged(_, id, _, _, _, _) => Some(id)
    case SubscriptionDeleted(_) => None
  }

  function PlanNamed(e: Event): Option<string> {
    if e.SubscriptionDeleted? then Some(TRIAL) else e.planKey
  }

  /** What the last event that said anything said, else what was there. */
  ghost predicate LastSaid<T(!new)>(es: seq<Event>, says: Event -> Option<T>, first: T, last: T) {
    || ((forall e | e in es :: says(e).None?) && last == first)
    || (exists i :: 0 <= i < |es| && says(es[i]) == Some(last) && forall k | i < k < |es| :: says(es[k]).None?)
  }

  lemma LastSaidGrows<T(!new)>(es: seq<Event>, e: Event, says: Event -> Option<T>, first: T, last: T)
    requires LastSaid(es, says, first, last)
    ensures LastSaid(es + [e], says, first, if says(e).Some? then says(e).value else last)
  {
    var all := es + [e];
    if says(e).Some? {
      assert says(all[|es|]) == Some(says(e).value);
    } else if i :| 0 <= i < |es| && says(es[i]) == Some(last) && forall k | i < k < |es| :: says(es[k]).None? {
      assert says(all[i]) == Some(last) && forall k | i < k < |all| :: says(all[k]).None?;
    }
  }

  function Told<T>(a: Option<T>): Option<Option<T>> {
    if a.Some? then Some(a) else None
  }

  /**
   In every run of deliveries the customer, the subscription and the plan are those of the last event taken that
   names one, and stay as they were if none does: an event that says nothing of a column leaves it alone. The token
   limit is that of the plan shown, if that plan has one.
   */
  lemma {:induction false} ColumnsAreLastSaid(plans: Plans, r: Row, es: seq<Event>)
    ensures var l := Deliver(plans, Ledger(r, []), es);
            && LastSaid(l.audit, e => Told(CustomerOf(e)), r.customer, l.row.customer)
            && LastSaid(l.audit, e => Told(SubscriptionOf(e)), r.subscription, l.row.subscription)
            && LastSaid(l.audit, PlanNamed, r.plan, l.row.plan)
            && (l.audit != [] && l.row.plan in plans && plans[l.row.plan].Some? ==> l.row.tokenLimit == plans[l.row.plan])
            && (l.audit == [] ==> l.row == r)
  {
    if es != [] {
      var l, e := Deliver(plans, Ledger(r, []), es[..|es| - 1]), es[|es| - 1];
      ColumnsAreLastSaid(plans, r, es[..|es| - 1]);
      LastSaidGrows(l.audit, e, e => Told(CustomerOf(e)), r.customer, l.row.customer);
      LastSaidGrows(l.audit, e, e => Told(SubscriptionOf(e)), r.subscription, l.row.subscription);
      LastSaidGrows(l.audit, e, PlanNamed, r.plan, l.row.plan);
    }
  }
}
