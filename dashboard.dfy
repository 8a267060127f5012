/** The `/api/dashboard` rules: the equipment health score and its summary buckets, the
    analytics look-back window, and the notification feed with its priorities, order and
    counts. */
module Dashboard {
  import opened Common
  import opened Sorting

  // ---------------------------------------------------------------- health

  /** The `healthScore` `$cond` for equipment with `anomalies` anomalies. */
  function HealthScore(anomalies: nat): (s: int)
    ensures s <= 100
    ensures s == 100 - 5 * anomalies
  {
    if anomalies == 0 then 100 else 100 - 5 * anomalies
  }

  predicate IsHealthy(score: int) { score >= 80 }
  predicate IsAtRisk(score: int) { score < 80 && score >= 60 }
  predicate IsCritical(score: int) { score < 60 }

  /** `array.filter(p).length` */
  function CountWhere(scores: seq<int>, p: int -> bool): (n: nat)
    ensures n <= |scores|
  {
    if scores == [] then 0
    else CountWhere(scores[..|scores| - 1], p) + (if p(scores[|scores| - 1]) then 1 else 0)
  }

  datatype Summary = Summary(totalEquipment: nat, healthyEquipment: nat, atRiskEquipment: nat, criticalEquipment: nat)

  /** The `summary` object over the health scores of the company's equipment. */
  function Summarize(scores: seq<int>): Summary {
    Summary(|scores|, CountWhere(scores, IsHealthy), CountWhere(scores, IsAtRisk), CountWhere(scores, IsCritical))
  }

  /** The three filters partition the list: their counts add up to the total. */
  lemma {:induction false} SummaryPartitions(scores: seq<int>)
    ensures var s := Summarize(scores);
            s.healthyEquipment + s.atRiskEquipment + s.criticalEquipment == s.totalEquipment
  {
    if scores != [] {
      SummaryPartitions(scores[..|scores| - 1]);
    }
  }

  /** In anomaly counts: healthy means at most 4 anomalies, at risk 5 to 8, critical 9 or more. */
  lemma BucketsByAnomalyCount(n: nat)
    ensures IsHealthy(HealthScore(n)) <==> n <= 4
    ensures IsAtRisk(HealthScore(n)) <==> 5 <= n <= 8
    ensures IsCritical(HealthScore(n)) <==> n >= 9
  {
  }

  // ---------------------------------------------------------------- analytics period

  /** The `startDate` of `/analytics` for the `period` parameter (`None` when absent, which
      defaults to `"30d"`); `oneYearBack` is `setFullYear(getFullYear() - 1)` of `now`. */
  function PeriodStart(period: Option<string>, now: Millis, oneYearBack: Millis): (start: Millis)
    ensures period == Some("7d") ==> start == now - 7 * DayMs
    ensures period == Some("90d") ==> start == now - 90 * DayMs
    ensures period == Some("1y") ==> start == oneYearBack
    ensures period !in {Some("7d"), Some("90d"), Some("1y")} ==> start == now - 30 * DayMs
  {
    var p := if period.None? then "30d" else period.value;
    if p == "7d" then now - 7 * DayMs
    else if p == "30d" then now - 30 * DayMs
    else if p == "90d" then now - 90 * DayMs
    else if p == "1y" then oneYearBack
    else now - 30 * DayMs
  }

  /** An unknown or absent period is the thirty-day window, and the longer the period the
      earlier the window starts. */
  lemma PeriodWindows(period: string, now: Millis, oneYearBack: Millis)
    requires period !in {"7d", "30d", "90d", "1y"}
    ensures PeriodStart(Some(period), now, oneYearBack) == PeriodStart(Some("30d"), now, oneYearBack)
    ensures PeriodStart(None, now, oneYearBack) == PeriodStart(Some("30d"), now, oneYearBack)
    ensures PeriodStart(Some("90d"), now, oneYearBack) < PeriodStart(Some("30d"), now, oneYearBack) < PeriodStart(Some("7d"), now, oneYearBack) < now
  {
  }

  // ---------------------------------------------------------------- notifications

  datatype Priority = High | Medium | Low

  /** `priorityOrder` */
  function Rank(p: Priority): nat {
    match p
    case High => 3
    case Medium => 2
    case Low => 1
  }

  datatype Kind = CriticalAnomaly | OverdueMaintenance | PartnershipInvitation

  /** A notification; `link` is the id of the anomaly, maintenance or partnership. */
  datatype Notification = Notification(kind: Kind, priority: Priority, link: nat, createdAt: Millis)

  /** `Math.floor((today - scheduledDate) / (1000 * 60 * 60 * 24))` */
  function DaysPast(today: Millis, scheduled: Millis): int {
    (today - scheduled) / DayMs
  }

  function OverduePriority(today: Millis, scheduled: Millis): Priority {
    if DaysPast(today, scheduled) > 7 then High else Medium
  }

  /** An overdue maintenance is urgent once eight full days have passed since its date. */
  lemma OverduePriorityThreshold(today: Millis, scheduled: Millis)
    ensures OverduePriority(today, scheduled) == High <==> today - scheduled >= 8 * DayMs
    ensures OverduePriority(today, scheduled) != Low
  {
  }

  function CriticalNotices(criticals: seq<(nat, Millis)>): (r: seq<Notification>)
    ensures |r| == |criticals|
    ensures forall i :: 0 <= i < |r| ==> r[i].priority == High && r[i].kind == CriticalAnomaly
  {
    seq(|criticals|, i requires 0 <= i < |criticals| => Notification(CriticalAnomaly, High, criticals[i].0, criticals[i].1))
  }

  function OverdueNotices(overdue: seq<(nat, Millis)>, today: Millis): (r: seq<Notification>)
    ensures |r| == |overdue|
    ensures forall i :: 0 <= i < |r| ==> r[i].priority == OverduePriority(today, overdue[i].1) && r[i].createdAt == overdue[i].1
  {
    seq(|overdue|, i requires 0 <= i < |overdue| => Notification(OverdueMaintenance, OverduePriority(today, overdue[i].1), overdue[i].0, overdue[i].1))
  }

  function InvitationNotices(pending: seq<(nat, Millis)>): (r: seq<Notification>)
    ensures |r| == |pending|
    ensures forall i :: 0 <= i < |r| ==> r[i].priority == Medium && r[i].kind == PartnershipInvitation
  {
    seq(|pending|, i requires 0 <= i < |pending| => Notification(PartnershipInvitation, Medium, pending[i].0, pending[i].1))
  }

  /** The comparator: higher rank first, then the more recent first. */
  predicate Before(a: Notification, b: Notification) {
    Rank(a.priority) > Rank(b.priority) || (Rank(a.priority) == Rank(b.priority) && a.createdAt >= b.createdAt)
  }

  lemma BeforeOrders()
    ensures TotalPreorder(Before)
  {
  }

  function CountPriority(s: seq<Notification>, p: Priority): (n: nat)
    ensures n <= |s|
  {
    if s == [] then 0
    else CountPriority(s[..|s| - 1], p) + (if s[|s| - 1].priority == p then 1 else 0)
  }

  datatype Counts = Counts(total: nat, high: nat, medium: nat, low: nat)

  function CountsOf(s: seq<Notification>): Counts {
    Counts(|s|, CountPriority(s, High), CountPriority(s, Medium), CountPriority(s, Low))
  }

  /** Every notification has one of the three priorities, so the counts add up. */
  lemma {:induction false} CountsAddUp(s: seq<Notification>)
    ensures var c := CountsOf(s); c.total == c.high + c.medium + c.low
  {
    if s != [] {
      CountsAddUp(s[..|s| - 1]);
    }
  }

  /** No source produces a `low` notification. */
  lemma {:induction false} NoLowNotices(s: seq<Notification>)
    requires forall i :: 0 <= i < |s| ==> s[i].priority != Low
    ensures CountPriority(s, Low) == 0
  {
    if s != [] {
      NoLowNotices(s[..|s| - 1]);
    }
  }

  /** The three `forEach` loops that fill `notifications`, in order. */
  method CollectNotifications(criticals: seq<(nat, Millis)>, overdue: seq<(nat, Millis)>, pending: seq<(nat, Millis)>, today: Millis)
    returns (list: seq<Notification>)
    ensures list == CriticalNotices(criticals) + OverdueNotices(overdue, today) + InvitationNotices(pending)
  {
    list := [];
    var i := 0;
    while i < |criticals|
      invariant i <= |criticals|
      invariant list == CriticalNotices(criticals)[..i]
    {
      list := list + [Notification(CriticalAnomaly, High, criticals[i].0, criticals[i].1)];
      i := i + 1;
    }
    i := 0;
    while i < |overdue|
      invariant i <= |overdue|
      invariant list == CriticalNotices(criticals) + OverdueNotices(overdue, today)[..i]
    {
      var days := DaysPast(today, overdue[i].1);
      var priority := if days > 7 then High else Medium;
      list := list + [Notification(OverdueMaintenance, priority, overdue[i].0, overdue[i].1)];
      i := i + 1;
    }
    i := 0;
    while i < |pending|
      invariant i <= |pending|
      invariant list == CriticalNotices(criticals) + OverdueNotices(overdue, today) + InvitationNotices(pending)[..i]
    {
      list := list + [Notification(PartnershipInvitation, Medium, pending[i].0, pending[i].1)];
      i := i + 1;
    }
  }

  /** `GET /notifications`: the collected notifications, sorted by priority then recency,
      with their counts. */
  method Notifications(criticals: seq<(nat, Millis)>, overdue: seq<(nat, Millis)>, pending: seq<(nat, Millis)>, today: Millis)
    returns (list: seq<Notification>, counts: Counts)
    ensures multiset(list) == multiset(CriticalNotices(criticals) + OverdueNotices(overdue, today) + InvitationNotices(pending))
    ensures forall i, j :: 0 <= i < j < |list| ==> Rank(list[i].priority) >= Rank(list[j].priority)
    ensures forall i, j :: 0 <= i < j < |list| && list[i].priority == list[j].priority ==> list[i].createdAt >= list[j].createdAt
    ensures counts.total == |list| == |criticals| + |overdue| + |pending|
    ensures counts.total == counts.high + counts.medium + counts.low
    ensures counts.low == 0
  {
    var collected := CollectNotifications(criticals, overdue, pending, today);
    BeforeOrders();
    list := SortBy(collected, Before);
    assert forall i, j :: 0 <= i < j < |list| ==> Before(list[i], list[j]);
    counts := CountsOf(list);
    CountsAddUp(list);
    forall i | 0 <= i < |list| ensures list[i].priority != Low {
      assert list[i] in multiset(collected);
      OverdueNoticesNeverLow(overdue, today);
    }
    NoLowNotices(list);
  }

  lemma OverdueNoticesNeverLow(overdue: seq<(nat, Millis)>, today: Millis)
    ensures forall n :: n in OverdueNotices(overdue, today) ==> n.priority != Low
  {
    forall n | n in OverdueNotices(overdue, today) ensures n.priority != Low {
      var i :| 0 <= i < |overdue| && OverdueNotices(overdue, today)[i] == n;
      OverduePriorityThreshold(today, overdue[i].1);
    }
  }
}
