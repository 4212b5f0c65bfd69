/**
 * The admin dashboard: the six statistics computed on the client from one user
 * listing and one lead listing, the recent-activity list merged from both, and
 * the relative rendering of a time. Times are milliseconds since the epoch; the
 * current time and the time one week back are parameters.
 */
module Dashboard {
  import opened Wrappers
  import opened Text
  import opened Sorting
  import opened Counting
  import Reports

  /* ---------- relative time ---------- */

  const MinuteMs := 60000

  /** The relative age a time is shown as. */
  datatype Age = JustNow | MinutesAgo(n: nat) | HoursAgo(n: nat) | DaysAgo(n: nat)

  /** `Math.floor(diff / 60000)`: `/` on `int` rounds down for a positive divisor, as `Math.floor` does. */
  function WholeMinutes(diffMs: int): (m: int)
    ensures m * MinuteMs <= diffMs < (m + 1) * MinuteMs
  {
    diffMs / MinuteMs
  }

  /** The bucket of `formatTime`: under a minute, under an hour, under a day, or days. */
  function AgeOf(diffMs: int): Age {
    var m := WholeMinutes(diffMs);
    if m < 1 then JustNow
    else if m < 60 then MinutesAgo(m)
    else if m < 1440 then HoursAgo(m / 60)
    else DaysAgo(m / 1440)
  }

  function Render(a: Age): string {
    match a
    case JustNow => "Just now"
    case MinutesAgo(n) => NatToString(n) + "m ago"
    case HoursAgo(n) => NatToString(n) + "h ago"
    case DaysAgo(n) => NatToString(n) + "d ago"
  }

  /** `formatTime`. */
  function FormatTime(now: int, time: int): string {
    Render(AgeOf(now - time))
  }

  /**
   * The bucket holds the true age: "Just now" for less than a minute (a time in
   * the future included), otherwise `n` whole units with `n` at least 1 and the
   * age between `n` and `n + 1` units; minutes stay under 60 and hours under 24.
   */
  lemma AgeOfBounds(diffMs: int)
    ensures var a := AgeOf(diffMs);
      && (a.JustNow? <==> diffMs < MinuteMs)
      && (a.MinutesAgo? <==> MinuteMs <= diffMs < 60 * MinuteMs)
      && (a.HoursAgo? <==> 60 * MinuteMs <= diffMs < 1440 * MinuteMs)
      && (a.DaysAgo? <==> 1440 * MinuteMs <= diffMs)
      && (a.MinutesAgo? ==> 1 <= a.n < 60 && a.n * MinuteMs <= diffMs < (a.n + 1) * MinuteMs)
      && (a.HoursAgo? ==> 1 <= a.n < 24 && a.n * 60 * MinuteMs <= diffMs < (a.n + 1) * 60 * MinuteMs)
      && (a.DaysAgo? ==> 1 <= a.n && a.n * 1440 * MinuteMs <= diffMs < (a.n + 1) * 1440 * MinuteMs)
  {
    var m := WholeMinutes(diffMs);
    if m >= 60 {
      Reports.DivBounds(m, 60);
      Reports.DivBounds(m, 1440);
    }
  }

  lemma SplitAtSuffix(x: string, y: string, s: string, t: string)
    requires x + s == y + t && |s| == |t|
    ensures x == y && s == t
  {
    assert x == (x + s)[..|x|];
    assert y == (y + t)[..|y|];
    assert s == (x + s)[|x|..];
    assert t == (y + t)[|y|..];
  }

  /** Only "Just now" starts with a letter. */
  lemma RenderStart(a: Age)
    ensures |Render(a)| > 0 && (Render(a)[0] == 'J' <==> a.JustNow?)
  {
    if !a.JustNow? {
      assert Render(a)[0] == NatToString(a.n)[0];
    }
  }

  /** Different ages are shown differently: the text tells the bucket and the number back. */
  lemma RenderInjective(a: Age, b: Age)
    requires Render(a) == Render(b)
    ensures a == b
  {
    RenderStart(a);
    RenderStart(b);
    if !a.JustNow? && !b.JustNow? {
      var sa := if a.MinutesAgo? then "m ago" else if a.HoursAgo? then "h ago" else "d ago";
      var sb := if b.MinutesAgo? then "m ago" else if b.HoursAgo? then "h ago" else "d ago";
      assert Render(a) == NatToString(a.n) + sa;
      assert Render(b) == NatToString(b.n) + sb;
      SplitAtSuffix(NatToString(a.n), NatToString(b.n), sa, sb);
      NatToStringInjective(a.n, b.n);
    }
  }

  /* ---------- statistics ---------- */

  /** A user of the listing; `id` is read as `user.id` and may be missing. */
  datatype DashUser = DashUser(id: Option<string>, name: string, isActive: bool, createdAt: int)

  /** A lead of the listing, with the populated creator's name when there is one. */
  datatype DashLead = DashLead(
    id: string, first_name: string, last_name: string, company_name: string,
    created_at: int, creatorName: Option<string>)

  /** `a || b || 0` over numbers that may be missing: the first one present and not zero. */
  function FirstNonZero(a: Option<int>, b: Option<int>): (r: int)
    ensures r != 0 ==> (a.Some? && r == a.value) || (b.Some? && r == b.value)
    ensures r == 0 <==> (a.None? || a.value == 0) && (b.None? || b.value == 0)
    ensures a.Some? && a.value != 0 ==> r == a.value
  {
    if a.Some? && a.value != 0 then a.value
    else if b.Some? && b.value != 0 then b.value
    else 0
  }

  /** `list?.length`. */
  function LengthOf<T>(list: Option<seq<T>>): Option<int> {
    if list.Some? then Some(|list.value|) else None
  }

  /** The number of elements satisfying `p` (`filter(p).length`). */
  function CountWhere<T>(s: seq<T>, p: T -> bool): (r: nat)
    ensures r <= |s|
    ensures r == |s| <==> forall i :: 0 <= i < |s| ==> p(s[i])
    ensures r == 0 <==> forall i :: 0 <= i < |s| ==> !p(s[i])
  {
    if s == [] then 0
    else
      var r := CountWhere(s[1..], p);
      assert forall i :: 1 <= i < |s| ==> s[i] == s[1..][i - 1];
      (if p(s[0]) then 1 else 0) + r
  }

  function IsActive(u: DashUser): bool { u.isActive }

  /** Created at or after `since`. */
  function CreatedSince(since: int): DashLead -> bool {
    (l: DashLead) => l.created_at >= since
  }

  function CompanyNames(leads: seq<DashLead>): (r: seq<string>)
    ensures |r| == |leads| && forall i :: 0 <= i < |leads| ==> r[i] == leads[i].company_name
  {
    seq(|leads|, i requires 0 <= i < |leads| => leads[i].company_name)
  }

  /** `new Set(leads.map(l => l.company_name)).size`. */
  function UniqueCompanyCount(leads: seq<DashLead>): nat {
    |Distinct(CompanyNames(leads))|
  }

  lemma {:induction false} DistinctNoLonger(keys: seq<string>)
    ensures |Distinct(keys)| <= |keys|
  {
    if keys != [] {
      DistinctNoLonger(keys[..|keys| - 1]);
    }
  }

  /** There are no more companies than leads, and at least one as soon as there is a lead. */
  lemma UniqueCompanyCountBounds(leads: seq<DashLead>)
    ensures UniqueCompanyCount(leads) <= |leads|
    ensures |leads| > 0 ==> UniqueCompanyCount(leads) >= 1
  {
    var names := CompanyNames(leads);
    DistinctNoLonger(names);
    if |leads| > 0 {
      assert names[0] in names;
      assert names[0] in Distinct(names);
    }
  }

  /** `StatsData`. */
  datatype Stats = Stats(
    totalUsers: int, totalLeads: int, activeUsers: nat,
    newLeadsThisWeek: nat, leadsByCompany: nat, conversionRate: nat)

  /** The part of each response the statistics read. */
  datatype Listing<T> = Listing(total: Option<int>, items: Option<seq<T>>)

  /** The items of a listing, `[]` when missing (`?.… || 0` and `|| []`). */
  function ItemsOf<T>(l: Listing<T>): seq<T> {
    if l.items.Some? then l.items.value else []
  }

  /** The statistics of `fetchDashboardData`; `weekAgo` is the time seven days back. */
  function ComputeStats(users: Listing<DashUser>, leads: Listing<DashLead>, weekAgo: int): (s: Stats)
    ensures s.totalLeads <= 0 ==> s.conversionRate == 0
    ensures s.activeUsers <= |ItemsOf(users)| && s.newLeadsThisWeek <= |ItemsOf(leads)|
    ensures s.totalUsers == FirstNonZero(users.total, LengthOf(users.items))
    ensures s.totalLeads == FirstNonZero(leads.total, LengthOf(leads.items))
  {
    var totalUsers := FirstNonZero(users.total, LengthOf(users.items));
    var totalLeads := FirstNonZero(leads.total, LengthOf(leads.items));
    var newThisWeek := CountWhere(ItemsOf(leads), CreatedSince(weekAgo));
    Stats(
      totalUsers,
      totalLeads,
      CountWhere(ItemsOf(users), IsActive),
      newThisWeek,
      UniqueCompanyCount(ItemsOf(leads)),
      ConversionRate(newThisWeek, totalLeads))
  }

  /**
   * Without a pagination total the totals are the listing lengths; the active
   * users are all the users exactly when every user is active, there is no new lead
   * exactly when every lead is older than a week, and the company figure never
   * exceeds the number of leads listed.
   */
  lemma StatsFacts(users: seq<DashUser>, leads: seq<DashLead>, weekAgo: int)
    ensures var s := ComputeStats(Listing(None, Some(users)), Listing(None, Some(leads)), weekAgo);
      && s.totalUsers == |users| && s.totalLeads == |leads|
      && (s.activeUsers == |users| <==> forall i :: 0 <= i < |users| ==> users[i].isActive)
      && (s.newLeadsThisWeek == 0 <==> forall i :: 0 <= i < |leads| ==> leads[i].created_at < weekAgo)
      && s.leadsByCompany <= |leads|
  {
    UniqueCompanyCountBounds(leads);
    var n := CountWhere(leads, CreatedSince(weekAgo));
    assert n == 0 <==> forall i :: 0 <= i < |leads| ==> !CreatedSince(weekAgo)(leads[i]);
    var m := CountWhere(users, IsActive);
    assert m == |users| <==> forall i :: 0 <= i < |users| ==> IsActive(users[i]);
  }

  /** `totalLeads > 0 ? Math.round((newLeadsThisWeek / totalLeads) * 100) : 0`, on integers. */
  function ConversionRate(newLeads: nat, totalLeads: int): (r: nat)
    ensures totalLeads <= 0 ==> r == 0
  {
    if totalLeads > 0 then Reports.RoundedRatio(100 * newLeads, totalLeads) else 0
  }

  lemma MulCancel(x: int, y: int, b: int)
    requires b > 0 && x * b <= y * b
    ensures x <= y
  {
    assert (y - x) * b >= 0;
  }

  lemma MulCancelStrict(x: int, y: int, b: int)
    requires b > 0 && x * b < y * b
    ensures x < y
  {
    assert (y - x) * b > 0;
  }

  /** The rate is a percentage when the new leads are among the total, and 100 when all of them are new. */
  lemma ConversionRateBounds(newLeads: nat, totalLeads: int)
    ensures newLeads <= totalLeads ==> ConversionRate(newLeads, totalLeads) <= 100
    ensures totalLeads > 0 && newLeads == totalLeads ==> ConversionRate(newLeads, totalLeads) == 100
  {
    if 0 < totalLeads {
      var r := ConversionRate(newLeads, totalLeads);
      var a, b := 100 * newLeads, totalLeads;
      assert 2 * a < (2 * r + 1) * b && (2 * r - 1) * b <= 2 * a;
      if newLeads <= b {
        assert 2 * a <= 200 * b;
        MulCancel(2 * r - 1, 200, b);
      }
      if newLeads == b {
        assert 2 * a == 200 * b;
        MulCancelStrict(200, 2 * r + 1, b);
      }
    }
  }

  /* ---------- recent activity ---------- */

  /** `RecentActivity`. */
  datatype Activity = Activity(id: Option<string>, kind: string, message: string, time: int, user: string)

  function TimeOf(a: Activity): int { a.time }

  function UserActivity(u: DashUser): Activity {
    Activity(u.id, "user_registered", "New user registered: " + u.name, u.createdAt, u.name)
  }

  /** `lead.created_by?.name || 'System'` names the user of a lead entry. */
  function LeadActivity(l: DashLead): (a: Activity)
    ensures a.user == (if l.creatorName.Some? && l.creatorName.value != "" then l.creatorName.value else "System")
  {
    Activity(
      Some(l.id), "lead_created",
      "New lead added: " + l.first_name + " " + l.last_name + " from " + l.company_name,
      l.created_at,
      if l.creatorName.Some? && l.creatorName.value != "" then l.creatorName.value else "System")
  }

  function UserActivities(us: seq<DashUser>): (r: seq<Activity>)
    ensures |r| == |us| && forall i :: 0 <= i < |us| ==> r[i] == UserActivity(us[i])
  {
    seq(|us|, i requires 0 <= i < |us| => UserActivity(us[i]))
  }

  function LeadActivities(ls: seq<DashLead>): (r: seq<Activity>)
    ensures |r| == |ls| && forall i :: 0 <= i < |ls| ==> r[i] == LeadActivity(ls[i])
  {
    seq(|ls|, i requires 0 <= i < |ls| => LeadActivity(ls[i]))
  }

  /** The entries pushed before sorting: the first three users, then the first two leads. */
  function Pushed(users: seq<DashUser>, leads: seq<DashLead>): seq<Activity> {
    UserActivities(Take(users, 3)) + LeadActivities(Take(leads, 2))
  }

  /** The two `forEach` loops: an entry pushed per user, then one per lead. */
  method PushActivities(recentUsers: seq<DashUser>, recentLeads: seq<DashLead>) returns (pushed: seq<Activity>)
    ensures pushed == UserActivities(recentUsers) + LeadActivities(recentLeads)
  {
    pushed := [];
    for i := 0 to |recentUsers|
      invariant pushed == UserActivities(recentUsers[..i])
    {
      assert recentUsers[..i + 1] == recentUsers[..i] + [recentUsers[i]];
      pushed := pushed + [UserActivity(recentUsers[i])];
    }
    assert recentUsers[..|recentUsers|] == recentUsers;
    for i := 0 to |recentLeads|
      invariant pushed == UserActivities(recentUsers) + LeadActivities(recentLeads[..i])
    {
      assert recentLeads[..i + 1] == recentLeads[..i] + [recentLeads[i]];
      pushed := pushed + [LeadActivity(recentLeads[i])];
    }
    assert recentLeads[..|recentLeads|] == recentLeads;
  }

  /**
   * The activity list of `fetchDashboardData`: one entry per user among the first
   * three and per lead among the first two, newest first (ties in push order).
   */
  method RecentActivity(users: Listing<DashUser>, leads: Listing<DashLead>) returns (activity: seq<Activity>)
    ensures multiset(activity) == multiset(Pushed(ItemsOf(users), ItemsOf(leads)))
    ensures NonIncreasing(activity, TimeOf)
    ensures |activity| <= 5
    ensures |activity| == (if |ItemsOf(users)| < 3 then |ItemsOf(users)| else 3) + (if |ItemsOf(leads)| < 2 then |ItemsOf(leads)| else 2)
  {
    var recentUsers := Take(ItemsOf(users), 3);
    var recentLeads := Take(ItemsOf(leads), 2);
    var pushed := PushActivities(recentUsers, recentLeads);
    assert |pushed| == |recentUsers| + |recentLeads|;
    activity := SortDesc(pushed, TimeOf);
  }
}
