/** The master dashboard (src/components/MasterDashboard.tsx): the search / status / priority
    filter over the job list, the headline counts, the "today" end-of-shift summary, the
    follow-up list it truncates and the SLA figures it shows with defaults. */
module MasterDashboard {

  import opened Maybe
  import opened Text
  import opened Jobs
  import opened JobKeys
  import Seqs

  /** `field && field.toLowerCase().includes(term.toLowerCase())`. */
  predicate FieldMatches(field: string, term: string)
  {
    |field| > 0 && Contains(Lower(field), Lower(term))
  }

  /** The search box: an empty term matches everything; otherwise the term must occur, ignoring
      case, in the customer, the site, the description or the engineer. */
  predicate MatchesSearch(j: Job, term: string)
  {
    || term == ""
    || FieldMatches(j.customer, term)
    || FieldMatches(j.site, term)
    || FieldMatches(j.description, term)
    || FieldMatches(j.engineer, term)
  }

  /** The status selector: 'all' or a status name. */
  predicate MatchesStatus(j: Job, statusFilter: string)
  {
    statusFilter == "all" || StatusName(j.status) == statusFilter
  }

  /** The priority selector: 'all' or a priority name. */
  predicate MatchesPriority(j: Job, priorityFilter: string)
  {
    priorityFilter == "all" || PriorityName(j.priority) == priorityFilter
  }

  /** `filteredJobs`: the jobs that pass all three tests, in their original order. */
  function FilteredJobs(jobs: seq<Job>, term: string, statusFilter: string, priorityFilter: string): (r: seq<Job>)
    ensures forall j :: j in r <==>
              j in jobs && MatchesSearch(j, term) && MatchesStatus(j, statusFilter)
              && MatchesPriority(j, priorityFilter)
    ensures forall j :: multiset(r)[j]
                        == if MatchesSearch(j, term) && MatchesStatus(j, statusFilter)
                              && MatchesPriority(j, priorityFilter)
                           then multiset(jobs)[j] else 0
  {
    Seqs.FilterMultiplicity(jobs, (j: Job) =>
      MatchesSearch(j, term) && MatchesStatus(j, statusFilter) && MatchesPriority(j, priorityFilter));
    Seqs.Filter(jobs, (j: Job) =>
      MatchesSearch(j, term) && MatchesStatus(j, statusFilter) && MatchesPriority(j, priorityFilter))
  }

  /** The filtered list keeps the order of the job list. */
  lemma FilteredJobsInOrder(jobs: seq<Job>, term: string, statusFilter: string, priorityFilter: string)
    ensures Seqs.IsSubsequence(FilteredJobs(jobs, term, statusFilter, priorityFilter), jobs)
  {
    Seqs.FilterIsSubsequence(jobs, (j: Job) =>
      MatchesSearch(j, term) && MatchesStatus(j, statusFilter) && MatchesPriority(j, priorityFilter));
  }

  /** With an empty search and both selectors at 'all', every job is listed. */
  lemma NoFilterListsAll(jobs: seq<Job>)
    ensures FilteredJobs(jobs, "", "all", "all") == jobs
  {
    Seqs.FilterAll(jobs, (j: Job) =>
      MatchesSearch(j, "") && MatchesStatus(j, "all") && MatchesPriority(j, "all"));
  }

  /** Selecting a status lists exactly the jobs with that status. */
  lemma StatusFilterSelects(jobs: seq<Job>, s: Status)
    ensures FilteredJobs(jobs, "", StatusName(s), "all") == Seqs.Filter(jobs, HasStatus(s))
  {
    assert forall j: Job :: (MatchesSearch(j, "") && MatchesStatus(j, StatusName(s))
                             && MatchesPriority(j, "all")) == HasStatus(s)(j) by {
      forall j: Job ensures MatchesStatus(j, StatusName(s)) == HasStatus(s)(j) {
        StatusNamesDistinct(j.status, s);
      }
    }
    Seqs.FilterSameTest(jobs, (j: Job) =>
      MatchesSearch(j, "") && MatchesStatus(j, StatusName(s)) && MatchesPriority(j, "all"), HasStatus(s));
  }

  /** The search ignores the case of the term: terms that agree after lower-casing match the
      same jobs. */
  lemma SearchIgnoresCase(j: Job, t1: string, t2: string)
    requires Lower(t1) == Lower(t2)
    ensures MatchesSearch(j, t1) == MatchesSearch(j, t2)
  {
    assert |t1| == |Lower(t1)| == |t2|;
  }

  /** Narrowing the search can only drop jobs: a job that matches a term matches every piece of
      it. */
  lemma SearchNarrows(j: Job, term: string, piece: string)
    requires Contains(Lower(term), Lower(piece))
    requires MatchesSearch(j, term)
    ensures MatchesSearch(j, piece)
  {
    if piece != "" && term != "" {
      forall field | FieldMatches(field, term)
        ensures FieldMatches(field, piece)
      {
        ContainsTransitive(Lower(field), Lower(term), Lower(piece));
      }
    }
  }

  /** `job.status === 'amber' || job.status === 'red'`. */
  predicate IsActive(j: Job)
  {
    j.status == Amber || j.status == Red
  }

  /** `job.priority === 'Critical'`. */
  predicate IsCritical(j: Job)
  {
    j.priority == Critical
  }

  /** The headline figures. */
  datatype Stats = Stats(total: nat, active: nat, completed: nat, critical: nat, overdue: nat)

  /** `stats`: how many jobs there are, and how many are amber or red, green, critical and red. */
  function ComputeStats(jobs: seq<Job>): (st: Stats)
    ensures st.total == |jobs|
    ensures st.active == |Seqs.Filter(jobs, IsActive)|
    ensures st.completed == |Seqs.Filter(jobs, HasStatus(Green))|
    ensures st.critical == |Seqs.Filter(jobs, IsCritical)|
    ensures st.overdue == |Seqs.Filter(jobs, HasStatus(Red))|
    ensures st.active + st.completed == st.total
    ensures st.overdue <= st.active
    ensures st.critical <= st.total
  {
    var st := Stats(
      |jobs|,
      |Seqs.Filter(jobs, IsActive)|,
      |Seqs.Filter(jobs, HasStatus(Green))|,
      |Seqs.Filter(jobs, IsCritical)|,
      |Seqs.Filter(jobs, HasStatus(Red))|);
    StatusCountsAddUp(jobs);
    Seqs.FilterDisjoint(jobs, HasStatus(Amber), HasStatus(Red), IsActive);
    st
  }

  /** The end-of-shift summary on the dashboard. `today` is the day of the clock reading and
      `dayOf` stands for `toDateString`, which maps a timestamp to its calendar day. */
  datatype ShiftReport = ShiftReport(
    date: int,
    totalJobsLogged: nat,
    completedJobs: nat,
    pendingJobs: nat,
    overdueJobs: nat,
    emergencyJobs: nat,
    followUpRequired: seq<Job>,
    summary: string)

  /** `job.tags?.includes('Emergency')`. */
  predicate TaggedEmergency(j: Job)
  {
    j.tags.Some? && "Emergency" in j.tags.value
  }

  /** `generateEndOfShiftReport`: today's jobs are those logged on the day of the clock reading
      `now`; the report counts them, counts the green, amber, red and Emergency-tagged ones,
      and lists the amber and red ones, every copy, in the order of the job list. */
  function GenerateEndOfShiftReport(jobs: seq<Job>, dayOf: Timestamp -> int, now: Timestamp): (rep: ShiftReport)
    ensures rep.date == dayOf(now)
    ensures rep.totalJobsLogged == |JobsOnDay(jobs, dayOf, dayOf(now))|
    ensures rep.completedJobs == |Seqs.Filter(JobsOnDay(jobs, dayOf, dayOf(now)), HasStatus(Green))|
    ensures rep.pendingJobs == |Seqs.Filter(JobsOnDay(jobs, dayOf, dayOf(now)), HasStatus(Amber))|
    ensures rep.overdueJobs == |Seqs.Filter(JobsOnDay(jobs, dayOf, dayOf(now)), HasStatus(Red))|
    ensures rep.emergencyJobs == |Seqs.Filter(JobsOnDay(jobs, dayOf, dayOf(now)), TaggedEmergency)|
    ensures rep.completedJobs + rep.pendingJobs + rep.overdueJobs == rep.totalJobsLogged
    ensures |rep.followUpRequired| == rep.totalJobsLogged - rep.completedJobs
    ensures forall j :: j in rep.followUpRequired <==>
              j in jobs && dayOf(j.dateLogged) == dayOf(now) && IsActive(j)
    ensures forall j :: multiset(rep.followUpRequired)[j]
                        == if dayOf(j.dateLogged) == dayOf(now) && IsActive(j) then multiset(jobs)[j] else 0
    ensures Seqs.IsSubsequence(rep.followUpRequired, jobs)
    ensures rep.emergencyJobs <= rep.totalJobsLogged
  {
    var today := dayOf(now);
    var todays := JobsOnDay(jobs, dayOf, today);
    FollowUpSelects(jobs, dayOf, today);
    ReportCountsAddUp(todays);
    var completed := |Seqs.Filter(todays, HasStatus(Green))|;
    var followUp := Seqs.Filter(todays, IsActive);
    var notGreen := |Seqs.Filter(todays, (j: Job) => j.status != Green)|;
    ShiftReport(
      today,
      |todays|,
      completed,
      |Seqs.Filter(todays, HasStatus(Amber))|,
      |Seqs.Filter(todays, HasStatus(Red))|,
      |Seqs.Filter(todays, TaggedEmergency)|,
      followUp,
      NatToString(|todays|) + " jobs logged today. " + NatToString(completed) + " completed, "
        + NatToString(notGreen) + " require follow-up.")
  }

  /** The amber and red jobs of a day: every copy of each, in the order of the job list. */
  lemma FollowUpSelects(jobs: seq<Job>, dayOf: Timestamp -> int, day: int)
    ensures var r := Seqs.Filter(JobsOnDay(jobs, dayOf, day), IsActive);
            && (forall j :: j in r <==> j in jobs && dayOf(j.dateLogged) == day && IsActive(j))
            && (forall j :: multiset(r)[j]
                            == if dayOf(j.dateLogged) == day && IsActive(j) then multiset(jobs)[j] else 0)
            && Seqs.IsSubsequence(r, jobs)
  {
    var todays := JobsOnDay(jobs, dayOf, day);
    Seqs.FilterMultiplicity(todays, IsActive);
    Seqs.FilterIsSubsequence(todays, IsActive);
    Seqs.SubsequenceTransitive(Seqs.Filter(todays, IsActive), todays, jobs);
  }

  /** Over any list, green, amber and red add up to the length, the amber-or-red jobs are the
      amber ones and the red ones, and the non-green jobs are as many as the amber-or-red ones. */
  lemma ReportCountsAddUp(todays: seq<Job>)
    ensures |Seqs.Filter(todays, HasStatus(Green))| + |Seqs.Filter(todays, HasStatus(Amber))|
            + |Seqs.Filter(todays, HasStatus(Red))| == |todays|
    ensures |Seqs.Filter(todays, IsActive)|
            == |Seqs.Filter(todays, HasStatus(Amber))| + |Seqs.Filter(todays, HasStatus(Red))|
    ensures |Seqs.Filter(todays, (j: Job) => j.status != Green)|
            == |todays| - |Seqs.Filter(todays, HasStatus(Green))|
  {
    StatusCountsAddUp(todays);
    Seqs.FilterDisjoint(todays, HasStatus(Amber), HasStatus(Red), IsActive);
    Seqs.FilterSplit(todays, HasStatus(Green), (j: Job) => j.status != Green);
  }

  /** The summary's "require follow-up" figure is the length of the follow-up list. */
  lemma SummaryCountsFollowUps(jobs: seq<Job>, dayOf: Timestamp -> int, now: Timestamp)
    ensures var rep := GenerateEndOfShiftReport(jobs, dayOf, now);
            rep.summary == NatToString(rep.totalJobsLogged) + " jobs logged today. "
                           + NatToString(rep.completedJobs) + " completed, "
                           + NatToString(|rep.followUpRequired|) + " require follow-up."
  {
    ReportCountsAddUp(JobsOnDay(jobs, dayOf, dayOf(now)));
  }

  /** The follow-up list as shown: its first three jobs, then "... and N more" when longer. */
  datatype FollowUpView = FollowUpView(shown: seq<Job>, more: Option<nat>)

  function FollowUpDisplay(followUp: seq<Job>): (v: FollowUpView)
    ensures |v.shown| <= 3 && |v.shown| <= |followUp| && v.shown == followUp[..|v.shown|]
    ensures |v.shown| == if |followUp| > 3 then 3 else |followUp|
    ensures v.more.Some? <==> |followUp| > 3
    ensures |v.shown| + v.more.GetOr(0) == |followUp|
  {
    if |followUp| > 3 then FollowUpView(followUp[..3], Some(|followUp| - 3))
    else FollowUpView(followUp, None)
  }

  /** `configured || fallback`: a configured 0 is falsy and shows the fallback. */
  function SlaOrDefault(configured: int, fallback: int): int
  {
    if configured != 0 then configured else fallback
  }

  /** The three SLA figures on a job card, in minutes, with defaults 30, 90 and 180. */
  function DisplayedSlas(j: Job): (r: (int, int, int))
    ensures r.0 != 0 && r.1 != 0 && r.2 != 0
    ensures j.customAlerts.acceptSla != 0 ==> r.0 == j.customAlerts.acceptSla
    ensures j.customAlerts.acceptSla == 0 ==> r.0 == 30
    ensures j.customAlerts.onsiteSla != 0 ==> r.1 == j.customAlerts.onsiteSla
    ensures j.customAlerts.onsiteSla == 0 ==> r.1 == 90
    ensures j.customAlerts.completedSla != 0 ==> r.2 == j.customAlerts.completedSla
    ensures j.customAlerts.completedSla == 0 ==> r.2 == 180
  {
    (SlaOrDefault(j.customAlerts.acceptSla, 30),
     SlaOrDefault(j.customAlerts.onsiteSla, 90),
     SlaOrDefault(j.customAlerts.completedSla, 180))
  }
}
