/** The dashboard's figures: the four counters and the data behind its two charts. */
module DashboardPage {
  import opened Wrappers
  import opened Seqs
  import opened Schema
  import opened Models

  /** An employee as the dashboard reads it: only whether it has teams matters. */
  datatype EmployeeRow = EmployeeRow(teams: Option<seq<string>>)

  /** A team as the dashboard reads it: its name and its member count, if the server sent one. */
  datatype TeamRow = TeamRow(name: string, employeeCount: Option<int>)

  /** One bar of the team distribution chart. */
  datatype TeamBar = TeamBar(name: string, members: int)

  /** The two slices of the assignment chart. */
  datatype AssignmentSplit = AssignmentSplit(assignedCount: int, unassignedCount: int)

  /** The four counters at the top of the page. */
  datatype Stats = Stats(totalEmployees: int, totalTeams: int, totalLogs: int, recentActivities: int)

  /** `n || 0` on a possibly missing number. */
  function NumberOrZero(n: Option<int>): int {
    if n.Some? && n.value != 0 then n.value else 0
  }

  /** `list?.length || 0`. */
  function LengthOrZero<T>(list: Option<seq<T>>): (n: nat)
    ensures list.None? ==> n == 0
    ensures list.Some? ==> n == |list.value|
  {
    if list.Some? then |list.value| else 0
  }

  /** getTeamDistributionData: one bar per team, in list order. */
  function TeamDistribution(teams: seq<TeamRow>): (bars: seq<TeamBar>)
    ensures |bars| == |teams|
    ensures forall i :: 0 <= i < |teams| ==>
      && bars[i].name == teams[i].name
      && (teams[i].employeeCount.Some? ==> bars[i].members == teams[i].employeeCount.value)
      && (teams[i].employeeCount.None? ==> bars[i].members == 0)
  {
    seq(|teams|, i requires 0 <= i < |teams| => TeamBar(teams[i].name, NumberOrZero(teams[i].employeeCount)))
  }

  /** An employee counts as assigned when its teams are present and non-empty. */
  predicate HasTeams(e: EmployeeRow) {
    e.teams.Some? && |e.teams.value| > 0
  }

  /** getEmployeesByTeamData: the two slices cover the list exactly. */
  function EmployeesByTeam(employees: seq<EmployeeRow>): (split: AssignmentSplit)
    ensures split.assignedCount == |Filter(employees, HasTeams)|
    ensures 0 <= split.assignedCount && 0 <= split.unassignedCount
    ensures split.assignedCount + split.unassignedCount == |employees|
  {
    var assignedCount := |Filter(employees, HasTeams)|;
    AssignmentSplit(assignedCount, |employees| - assignedCount)
  }

  /** Every employee is assigned exactly when every employee has teams. */
  lemma {:induction false} NoneUnassignedIffAllHaveTeams(employees: seq<EmployeeRow>)
    ensures EmployeesByTeam(employees).unassignedCount == 0 <==> forall e :: e in employees ==> HasTeams(e)
  {
    if forall e :: e in employees ==> HasTeams(e) {
      FilterKeepsAll(employees, HasTeams);
    } else {
      var e :| e in employees && !HasTeams(e);
      FilterDropsOne(employees, HasTeams, e);
    }
  }

  /** The stats set at the end of fetchDashboardData, from the three responses. */
  function DashboardStats(employees: Option<seq<EmployeeRow>>, teams: Option<seq<TeamRow>>,
                          logs: Option<seq<LogEntry>>, total: Option<int>): (s: Stats)
    ensures s.totalEmployees == LengthOrZero(employees) && s.totalTeams == LengthOrZero(teams)
    ensures s.recentActivities == LengthOrZero(logs)
    ensures s.totalLogs == if total.Some? && total.value != 0 then total.value else LengthOrZero(logs)
  {
    var recent := LengthOrZero(logs);
    Stats(LengthOrZero(employees), LengthOrZero(teams), if total.Some? && total.value != 0 then total.value else recent, recent)
  }

  /** The page asks for the five most recent logs, so its activity counter never exceeds five. */
  lemma RecentActivitiesAtMostFive(logs: seq<LogEntry>, org: int, employees: Option<seq<EmployeeRow>>,
                                   teams: Option<seq<TeamRow>>, total: Option<int>)
    ensures DashboardStats(employees, teams, Some(RecentLogs(logs, org, 5)), total).recentActivities <= 5
  {
  }

  /**
   * The log route answers with the rows alone and no `total`, so the "Total Logs" card falls
   * back to the number of rows fetched: it shows the recent-activity count, at most five.
   */
  lemma TotalLogsIsRecentCount(logs: seq<LogEntry>, org: int, employees: Option<seq<EmployeeRow>>,
                               teams: Option<seq<TeamRow>>)
    ensures var s := DashboardStats(employees, teams, Some(RecentLogs(logs, org, 5)), None);
      s.totalLogs == s.recentActivities <= 5
  {
    RecentActivitiesAtMostFive(logs, org, employees, teams, None);
  }
}
