/** The end-of-shift report page (src/components/EndOfShiftReport.tsx): the jobs logged on the
    selected day, optionally for one engineer, their status counts and distinct customers and
    sites, the completion rate, the per-engineer and per-customer breakdowns, and the
    minutes-to-"Hh Mm" formatter. */
module ShiftReport {

  import opened Maybe
  import opened Text
  import opened Jobs
  import opened JobKeys
  import Seqs

  /** The engineer selector: 'all' keeps every job, any other value keeps the jobs of the
      engineer with exactly that name. */
  function ForEngineer(jobs: seq<Job>, selected: string): (r: seq<Job>)
    ensures forall j :: j in r <==> j in jobs && (selected == "all" || j.engineer == selected)
    ensures forall j :: multiset(r)[j]
                        == if selected == "all" || j.engineer == selected then multiset(jobs)[j] else 0
  {
    Seqs.FilterMultiplicity(jobs, KeyIs(EngineerOf, selected));
    if selected == "all" then jobs else Seqs.Filter(jobs, KeyIs(EngineerOf, selected))
  }

  /** `filteredJobs`: the jobs the report is about, `getJobsForDate` then the engineer
      selector. */
  function ReportJobs(jobs: seq<Job>, dayOf: Timestamp -> int, target: int, selected: string): seq<Job>
  {
    ForEngineer(JobsOnDay(jobs, dayOf, target), selected)
  }

  /** The report's jobs are exactly those logged on the day (and by the engineer, unless 'all'
      is selected), in the order of the job list. */
  lemma ReportJobsSelect(jobs: seq<Job>, dayOf: Timestamp -> int, target: int, selected: string)
    ensures forall j :: j in ReportJobs(jobs, dayOf, target, selected) <==>
              j in jobs && dayOf(j.dateLogged) == target && (selected == "all" || j.engineer == selected)
    ensures Seqs.IsSubsequence(ReportJobs(jobs, dayOf, target, selected), jobs)
  {
    var onDay := JobsOnDay(jobs, dayOf, target);
    var r := ReportJobs(jobs, dayOf, target, selected);
    if selected != "all" {
      Seqs.FilterIsSubsequence(onDay, KeyIs(EngineerOf, selected));
      Seqs.SubsequenceTransitive(r, onDay, jobs);
    }
  }

  /** The report's summary figures. */
  datatype Stats = Stats(
    totalJobs: nat,
    completed: nat,
    inProgress: nat,
    issues: nat,
    totalCustomers: nat,
    totalSites: nat)

  /** `stats`: the number of jobs, of green, amber and red ones, and of distinct customer and
      site names. */
  function ComputeStats(jobs: seq<Job>): (st: Stats)
    ensures st.totalJobs == |jobs|
    ensures st.completed == |Seqs.Filter(jobs, HasStatus(Green))|
    ensures st.inProgress == |Seqs.Filter(jobs, HasStatus(Amber))|
    ensures st.issues == |Seqs.Filter(jobs, HasStatus(Red))|
    ensures st.totalCustomers == |Seqs.Image(jobs, CustomerOf)|
    ensures st.totalSites == |Seqs.Image(jobs, SiteOf)|
    ensures st.completed + st.inProgress + st.issues == st.totalJobs
    ensures st.totalCustomers <= st.totalJobs && st.totalSites <= st.totalJobs
    ensures st.totalCustomers == 0 <==> st.totalJobs == 0
    ensures st.totalSites == 0 <==> st.totalJobs == 0
  {
    StatusCountsAddUp(jobs);
    Stats(
      |jobs|,
      |Seqs.Filter(jobs, HasStatus(Green))|,
      |Seqs.Filter(jobs, HasStatus(Amber))|,
      |Seqs.Filter(jobs, HasStatus(Red))|,
      |Seqs.Image(jobs, CustomerOf)|,
      |Seqs.Image(jobs, SiteOf)|)
  }

  /** `total > 0 ? (completed / total) * 100 : 0`, on exact reals. */
  function Rate(completed: nat, total: nat): real
  {
    if total > 0 then (completed as real / total as real) * 100.0 else 0.0
  }

  /** A rate of completed out of total lies between 0 and 100; it is 0 exactly when nothing is
      completed (or there is nothing), and 100 exactly when everything is. */
  lemma RateBounds(completed: nat, total: nat)
    requires completed <= total
    ensures 0.0 <= Rate(completed, total) <= 100.0
    ensures Rate(completed, total) == 0.0 <==> completed == 0
    ensures Rate(completed, total) == 100.0 <==> total > 0 && completed == total
  {
    if total > 0 {
      var q := completed as real / total as real;
      assert q * total as real == completed as real;
      assert q <= 1.0;
      if q == 1.0 {
        assert completed as real == total as real;
      }
    }
  }

  /** `completionRate`: the share of green jobs, as a percentage; 0 exactly when no job is
      green, and 100 exactly when there are jobs and all of them are green. */
  function CompletionRate(jobs: seq<Job>): (r: real)
    ensures r == Rate(|Seqs.Filter(jobs, HasStatus(Green))|, |jobs|)
    ensures 0.0 <= r <= 100.0
    ensures jobs == [] ==> r == 0.0
    ensures r == 0.0 <==> forall j :: j in jobs ==> j.status != Green
    ensures r == 100.0 <==> jobs != [] && forall j :: j in jobs ==> j.status == Green
  {
    var st := ComputeStats(jobs);
    GreenShare(jobs);
    Rate(st.completed, st.totalJobs)
  }

  /** The rate of green jobs is 0 exactly when none is green, and 100 exactly when there are
      jobs and all are green. */
  lemma GreenShare(jobs: seq<Job>)
    ensures var rate := Rate(|Seqs.Filter(jobs, HasStatus(Green))|, |jobs|);
            && 0.0 <= rate <= 100.0
            && (rate == 0.0 <==> forall j :: j in jobs ==> j.status != Green)
            && (rate == 100.0 <==> jobs != [] && forall j :: j in jobs ==> j.status == Green)
  {
    var green := Seqs.Filter(jobs, HasStatus(Green));
    RateBounds(|green|, |jobs|);
    Seqs.FilterKeepsAllIff(jobs, HasStatus(Green));
    assert forall j :: HasStatus(Green)(j) == (j.status == Green);
    assert green == [] <==> forall j :: j in jobs ==> j.status != Green;
  }

  /** One row of the per-engineer breakdown. */
  datatype EngineerRow = EngineerRow(
    name: string, totalJobs: nat, completed: nat, inProgress: nat, issues: nat, completionRate: real)

  /** One row of the per-customer breakdown. */
  datatype CustomerRow = CustomerRow(
    name: string, totalJobs: nat, completed: nat, inProgress: nat, issues: nat)

  function EngineerRowFor(name: string, jobs: seq<Job>): (row: EngineerRow)
    ensures row.name == name
    ensures row.totalJobs == |Seqs.Filter(jobs, KeyIs(EngineerOf, name))|
    ensures row.completed == |Seqs.Filter(Seqs.Filter(jobs, KeyIs(EngineerOf, name)), HasStatus(Green))|
    ensures row.inProgress == |Seqs.Filter(Seqs.Filter(jobs, KeyIs(EngineerOf, name)), HasStatus(Amber))|
    ensures row.issues == |Seqs.Filter(Seqs.Filter(jobs, KeyIs(EngineerOf, name)), HasStatus(Red))|
    ensures row.completed + row.inProgress + row.issues == row.totalJobs
    ensures row.completionRate == Rate(row.completed, row.totalJobs)
    ensures 0.0 <= row.completionRate <= 100.0
  {
    var mine := Seqs.Filter(jobs, KeyIs(EngineerOf, name));
    var done := |Seqs.Filter(mine, HasStatus(Green))|;
    StatusCountsAddUp(mine);
    RateBounds(done, |mine|);
    EngineerRow(name, |mine|, done, |Seqs.Filter(mine, HasStatus(Amber))|,
                |Seqs.Filter(mine, HasStatus(Red))|, Rate(done, |mine|))
  }

  function CustomerRowFor(name: string, jobs: seq<Job>): (row: CustomerRow)
    ensures row.name == name
    ensures row.totalJobs == |Seqs.Filter(jobs, KeyIs(CustomerOf, name))|
    ensures row.completed == |Seqs.Filter(Seqs.Filter(jobs, KeyIs(CustomerOf, name)), HasStatus(Green))|
    ensures row.inProgress == |Seqs.Filter(Seqs.Filter(jobs, KeyIs(CustomerOf, name)), HasStatus(Amber))|
    ensures row.issues == |Seqs.Filter(Seqs.Filter(jobs, KeyIs(CustomerOf, name)), HasStatus(Red))|
    ensures row.completed + row.inProgress + row.issues == row.totalJobs
  {
    var theirs := Seqs.Filter(jobs, KeyIs(CustomerOf, name));
    StatusCountsAddUp(theirs);
    CustomerRow(name, |theirs|, |Seqs.Filter(theirs, HasStatus(Green))|,
                |Seqs.Filter(theirs, HasStatus(Amber))|, |Seqs.Filter(theirs, HasStatus(Red))|)
  }

  /** An engineer's row is the report's figures over that engineer's jobs alone: the same
      counts, and the same completion rate. */
  lemma EngineerRowIsStats(name: string, jobs: seq<Job>)
    ensures var row := EngineerRowFor(name, jobs);
            var mine := Seqs.Filter(jobs, KeyIs(EngineerOf, name));
            var st := ComputeStats(mine);
            && row.totalJobs == st.totalJobs && row.completed == st.completed
            && row.inProgress == st.inProgress && row.issues == st.issues
            && row.completionRate == CompletionRate(mine)
  {
  }

  /** A customer's row is the report's figures over that customer's jobs alone. */
  lemma CustomerRowIsStats(name: string, jobs: seq<Job>)
    ensures var row := CustomerRowFor(name, jobs);
            var st := ComputeStats(Seqs.Filter(jobs, KeyIs(CustomerOf, name)));
            && row.totalJobs == st.totalJobs && row.completed == st.completed
            && row.inProgress == st.inProgress && row.issues == st.issues
  {
  }

  /** One row per roster engineer, in roster order, before empty rows are dropped. */
  function AllEngineerRows(roster: seq<Engineer>, jobs: seq<Job>): (r: seq<EngineerRow>)
    ensures |r| == |roster|
    ensures forall i :: 0 <= i < |roster| ==> r[i] == EngineerRowFor(roster[i].name, jobs)
  {
    seq(|roster|, i requires 0 <= i < |roster| => EngineerRowFor(roster[i].name, jobs))
  }

  /** One row per roster customer, in roster order, before empty rows are dropped. */
  function AllCustomerRows(customers: seq<Customer>, jobs: seq<Job>): (r: seq<CustomerRow>)
    ensures |r| == |customers|
    ensures forall i :: 0 <= i < |customers| ==> r[i] == CustomerRowFor(customers[i].name, jobs)
  {
    seq(|customers|, i requires 0 <= i < |customers| => CustomerRowFor(customers[i].name, jobs))
  }

  /** Every row comes from a member of `roster`, and every member has its row. */
  lemma AllEngineerRowsMembers(roster: seq<Engineer>, jobs: seq<Job>)
    ensures forall row :: row in AllEngineerRows(roster, jobs) <==>
              exists e :: e in roster && row == EngineerRowFor(e.name, jobs)
  {
    var all := AllEngineerRows(roster, jobs);
    forall row | row in all ensures exists e :: e in roster && row == EngineerRowFor(e.name, jobs) {
      var i :| 0 <= i < |all| && all[i] == row;
      assert roster[i] in roster;
    }
    forall e | e in roster ensures EngineerRowFor(e.name, jobs) in all {
      var i :| 0 <= i < |roster| && roster[i] == e;
      assert all[i] == EngineerRowFor(e.name, jobs);
    }
  }

  /** `engineerStats`: the roster's rows with at least one job. */
  function EngineerStats(roster: seq<Engineer>, jobs: seq<Job>): (rows: seq<EngineerRow>)
    ensures forall row :: row in rows ==>
              row.totalJobs > 0 && row.completed + row.inProgress + row.issues == row.totalJobs
    ensures forall row :: row in rows <==>
              exists e :: e in roster && row == EngineerRowFor(e.name, jobs) && row.totalJobs > 0
    ensures forall row :: multiset(rows)[row]
                          == if row.totalJobs > 0 then multiset(AllEngineerRows(roster, jobs))[row] else 0
  {
    var all := AllEngineerRows(roster, jobs);
    AllEngineerRowsMembers(roster, jobs);
    Seqs.FilterMultiplicity(all, NonEmptyEngineerRow);
    Seqs.Filter(all, NonEmptyEngineerRow)
  }

  /** Every row comes from a member of `customers`, and every member has its row. */
  lemma AllCustomerRowsMembers(customers: seq<Customer>, jobs: seq<Job>)
    ensures forall row :: row in AllCustomerRows(customers, jobs) <==>
              exists c :: c in customers && row == CustomerRowFor(c.name, jobs)
  {
    var all := AllCustomerRows(customers, jobs);
    forall row | row in all ensures exists c :: c in customers && row == CustomerRowFor(c.name, jobs) {
      var i :| 0 <= i < |all| && all[i] == row;
      assert customers[i] in customers;
    }
    forall c | c in customers ensures CustomerRowFor(c.name, jobs) in all {
      var i :| 0 <= i < |customers| && customers[i] == c;
      assert all[i] == CustomerRowFor(c.name, jobs);
    }
  }

  /** `customerStats`: the customers' rows with at least one job. */
  function CustomerStats(customers: seq<Customer>, jobs: seq<Job>): (rows: seq<CustomerRow>)
    ensures forall row :: row in rows ==>
              row.totalJobs > 0 && row.completed + row.inProgress + row.issues == row.totalJobs
    ensures forall row :: row in rows <==>
              exists c :: c in customers && row == CustomerRowFor(c.name, jobs) && row.totalJobs > 0
    ensures forall row :: multiset(rows)[row]
                          == if row.totalJobs > 0 then multiset(AllCustomerRows(customers, jobs))[row] else 0
  {
    var all := AllCustomerRows(customers, jobs);
    AllCustomerRowsMembers(customers, jobs);
    Seqs.FilterMultiplicity(all, NonEmptyCustomerRow);
    Seqs.Filter(all, NonEmptyCustomerRow)
  }

  /** The engineer rows keep roster order. */
  lemma EngineerStatsInRosterOrder(roster: seq<Engineer>, jobs: seq<Job>)
    ensures Seqs.IsSubsequence(EngineerStats(roster, jobs), AllEngineerRows(roster, jobs))
  {
    Seqs.FilterIsSubsequence(AllEngineerRows(roster, jobs), NonEmptyEngineerRow);
  }

  /** The customer rows keep the customer list's order. */
  lemma CustomerStatsInOrder(customers: seq<Customer>, jobs: seq<Job>)
    ensures Seqs.IsSubsequence(CustomerStats(customers, jobs), AllCustomerRows(customers, jobs))
  {
    Seqs.FilterIsSubsequence(AllCustomerRows(customers, jobs), NonEmptyCustomerRow);
  }

  function EngineerRowTotal(row: EngineerRow): nat { row.totalJobs }
  function CustomerRowTotal(row: CustomerRow): nat { row.totalJobs }
  predicate NonEmptyEngineerRow(row: EngineerRow) { row.totalJobs > 0 }
  predicate NonEmptyCustomerRow(row: CustomerRow) { row.totalJobs > 0 }

  /** When the roster's names are distinct and every job's engineer is on the roster, the
      engineer rows account for every job exactly once. */
  lemma EngineerStatsCoverJobs(roster: seq<Engineer>, jobs: seq<Job>)
    requires Distinct(seq(|roster|, i requires 0 <= i < |roster| => roster[i].name))
    requires forall j :: j in jobs ==> exists e :: e in roster && e.name == j.engineer
    ensures Seqs.Sum(Seqs.Sizes(EngineerStats(roster, jobs), EngineerRowTotal)) == |jobs|
  {
    var names := seq(|roster|, i requires 0 <= i < |roster| => roster[i].name);
    forall j | j in jobs ensures EngineerOf(j) in names {
      var e :| e in roster && e.name == j.engineer;
      var i :| 0 <= i < |roster| && roster[i] == e;
      assert names[i] == EngineerOf(j);
    }
    CountsByNameCover(names, EngineerOf, jobs);
    assert Seqs.Sizes(AllEngineerRows(roster, jobs), EngineerRowTotal) == CountsByName(names, EngineerOf, jobs);
    Seqs.SumDropZeros(AllEngineerRows(roster, jobs), EngineerRowTotal, NonEmptyEngineerRow);
  }

  /** When the customers' names are distinct and every job's customer is among them, the
      customer rows account for every job exactly once. */
  lemma CustomerStatsCoverJobs(customers: seq<Customer>, jobs: seq<Job>)
    requires Distinct(seq(|customers|, i requires 0 <= i < |customers| => customers[i].name))
    requires forall j :: j in jobs ==> exists c :: c in customers && c.name == j.customer
    ensures Seqs.Sum(Seqs.Sizes(CustomerStats(customers, jobs), CustomerRowTotal)) == |jobs|
  {
    var names := seq(|customers|, i requires 0 <= i < |customers| => customers[i].name);
    forall j | j in jobs ensures CustomerOf(j) in names {
      var c :| c in customers && c.name == j.customer;
      var i :| 0 <= i < |customers| && customers[i] == c;
      assert names[i] == CustomerOf(j);
    }
    CountsByNameCover(names, CustomerOf, jobs);
    assert Seqs.Sizes(AllCustomerRows(customers, jobs), CustomerRowTotal) == CountsByName(names, CustomerOf, jobs);
    Seqs.SumDropZeros(AllCustomerRows(customers, jobs), CustomerRowTotal, NonEmptyCustomerRow);
  }

  /** `formatDuration(minutes)`: `Math.floor(minutes / 60)` hours and `minutes % 60` minutes,
      as "Hh Mm" when there is at least one hour and "Mm" otherwise. JavaScript's `%` keeps the
      sign of the dividend. */
  function FormatDuration(minutes: int): string
  {
    var hours := minutes / 60;
    var mins := if minutes >= 0 then minutes % 60 else -((-minutes) % 60);
    if hours > 0 then IntToString(hours) + "h " + IntToString(mins) + "m"
    else IntToString(mins) + "m"
  }

  /** Reads a duration back from "Hh Mm" (with H > 0 and M < 60) or "Mm". */
  function ParseDuration(s: string): Option<int>
  {
    if |s| == 0 || s[|s| - 1] != 'm' then None
    else
      var body := s[..|s| - 1];
      var i := IndexOf(body, 'h');
      if i == |body| then
        match ParseNat(body)
        case Some(m) => if m < 60 then Some(m) else None
        case None => None
      else if i + 1 < |body| && body[i + 1] == ' ' then
        match (ParseNat(body[..i]), ParseNat(body[i + 2..]))
        case (Some(h), Some(m)) => if h > 0 && m < 60 then Some(h * 60 + m) else None
        case _ => None
      else None
  }

  /** Decimal digits never contain the hour marker. */
  lemma DigitsLackH(s: string)
    requires AllDigits(s)
    ensures forall k :: 0 <= k < |s| ==> s[k] != 'h'
    ensures IndexOf(s, 'h') == |s|
  {
  }

  /** "Hh Mm" over runs of digits H and M is split at the hour marker. */
  lemma ParseHoursText(a: string, b: string, h: nat, m: nat)
    requires ParseNat(a) == Some(h) && ParseNat(b) == Some(m) && h > 0 && m < 60
    ensures ParseDuration(a + "h " + b + "m") == Some(h * 60 + m)
  {
    DigitsLackH(a);
    var s := a + "h " + b + "m";
    var body := s[..|s| - 1];
    assert s[|s| - 1] == 'm';
    assert body == a + ("h " + b);
    IndexOfAfter(a, "h " + b, 'h');
    assert body[|a| + 1] == ' ';
    assert body[..|a|] == a;
    assert body[|a| + 2..] == b;
  }

  /** With at least one hour: "Hh Mm" reads back as H * 60 + M. */
  lemma ParseHoursAndMinutes(hours: nat, mins: nat)
    requires hours > 0 && mins < 60
    ensures ParseDuration(NatToString(hours) + "h " + NatToString(mins) + "m") == Some(hours * 60 + mins)
  {
    ParseNatToString(hours);
    ParseNatToString(mins);
    ParseHoursText(NatToString(hours), NatToString(mins), hours, mins);
  }

  /** Under an hour: "Mm" reads back as M. */
  lemma ParseMinutes(mins: nat)
    requires mins < 60
    ensures ParseDuration(NatToString(mins) + "m") == Some(mins)
  {
    var b := NatToString(mins);
    ParseNatToString(mins);
    DigitsLackH(b);
    var s := b + "m";
    assert s[..|s| - 1] == b;
  }

  /** For a non-negative number of minutes, the formatted duration reads back as that number:
      H = minutes div 60 and M = minutes mod 60 < 60. */
  lemma FormatDurationRoundTrip(minutes: nat)
    ensures ParseDuration(FormatDuration(minutes)) == Some(minutes)
  {
    var hours, mins := minutes / 60, minutes % 60;
    FormatDurationShape(minutes);
    if hours > 0 {
      ParseHoursAndMinutes(hours, mins);
    } else {
      ParseMinutes(mins);
    }
  }

  /** For a non-negative number of minutes, both parts are non-negative and print without a
      sign. */
  lemma FormatDurationShape(minutes: nat)
    ensures minutes / 60 > 0 ==>
              FormatDuration(minutes) == NatToString(minutes / 60) + "h " + NatToString(minutes % 60) + "m"
    ensures minutes / 60 == 0 ==> FormatDuration(minutes) == NatToString(minutes % 60) + "m"
  {
  }
}
