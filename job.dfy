/** The record and enum types of the job tracker (src/types/job.ts) and the operations on
    one job's alert list that more than one component performs. */
module Jobs {

  import opened Maybe
  import opened Text
  import Seqs

  /** Milliseconds since the epoch: what a `Date` holds. */
  type Timestamp = int

  /** green = completed, amber = in progress, red = overdue or an issue. */
  datatype Status = Green | Amber | Red

  datatype Priority = Low | Medium | High | Critical

  datatype JobKind =
    | Maintenance | Repair | Installation | Emergency | Inspection | Draft | OutOfHours | CallOut

  datatype Category =
    | Electrical | Mechanical | Plumbing | HVAC | General | FireSafety | SecuritySystems
    | Painting | Flooring | Roofing

  /** The milestone an alert concerns: 'ACCEPTED' | 'ONSITE' | 'COMPLETED' | 'OVERDUE'. */
  datatype AlertType = Accepted | Onsite | Completed | Overdue

  /** `JobContact` and `Reporter` share this shape. */
  datatype Contact = Contact(name: string, number: string, email: string, relationship: string)

  /** SLA thresholds, each a number of minutes. */
  datatype CustomAlerts = CustomAlerts(acceptSla: int, onsiteSla: int, completedSla: int)

  datatype JobAlert = JobAlert(
    id: string,
    kind: AlertType,
    message: string,
    timestamp: Timestamp,
    acknowledged: bool)

  /** A job. `dateLogged` is always present; the three milestone dates are each independently
      absent or present, and nothing orders them. `alerts` and `tags` are optional fields. */
  datatype Job = Job(
    id: string,
    jobNumber: string,
    customer: string,
    site: string,
    engineer: string,
    contact: Contact,
    reporter: Contact,
    status: Status,
    priority: Priority,
    dateLogged: Timestamp,
    dateAccepted: Option<Timestamp>,
    dateOnSite: Option<Timestamp>,
    dateCompleted: Option<Timestamp>,
    description: string,
    jobType: JobKind,
    category: Category,
    targetCompletionTime: int,
    reason: Option<string>,
    customAlerts: CustomAlerts,
    alerts: Option<seq<JobAlert>>,
    tags: Option<seq<string>>)

  datatype Customer = Customer(id: int, name: string, sites: seq<string>)

  /** An engineer's call state: 'accept' | 'onsite' | 'travel' | 'completed' | 'require_revisit'. */
  datatype EngineerStatus = OnCallAccept | OnCallOnsite | OnCallTravel | OnCallCompleted | RequireRevisit

  datatype SyncStatus = Synced | SyncPending | SyncError

  datatype Engineer = Engineer(
    name: string,
    email: string,
    phone: string,
    status: EngineerStatus,
    syncStatus: SyncStatus,
    avatar: Option<string>)

  /** The string a status compares equal to. */
  function StatusName(s: Status): string
  {
    match s
    case Green => "green"
    case Amber => "amber"
    case Red => "red"
  }

  /** The string a priority compares equal to. */
  function PriorityName(p: Priority): string
  {
    match p
    case Low => "Low"
    case Medium => "Medium"
    case High => "High"
    case Critical => "Critical"
  }

  /** The string an alert type compares equal to. */
  function AlertTypeName(t: AlertType): string
  {
    match t
    case Accepted => "ACCEPTED"
    case Onsite => "ONSITE"
    case Completed => "COMPLETED"
    case Overdue => "OVERDUE"
  }

  /** Each status has its own name, and the filter value 'all' is none of them. */
  lemma StatusNamesDistinct(a: Status, b: Status)
    ensures StatusName(a) == StatusName(b) <==> a == b
    ensures StatusName(a) != "all"
  {
  }

  /** Each priority has its own name, and the filter value 'all' is none of them. */
  lemma PriorityNamesDistinct(a: Priority, b: Priority)
    ensures PriorityName(a) == PriorityName(b) <==> a == b
    ensures PriorityName(a) != "all"
  {
  }

  /** `job => job.status === s`. */
  function HasStatus(s: Status): Job -> bool
  {
    (j: Job) => j.status == s
  }

  /** Every job is counted under exactly one of the three statuses. */
  lemma {:induction false} StatusCountsAddUp(jobs: seq<Job>)
    ensures |Seqs.Filter(jobs, HasStatus(Green))| + |Seqs.Filter(jobs, HasStatus(Amber))|
            + |Seqs.Filter(jobs, HasStatus(Red))| == |jobs|
  {
    if jobs != [] {
      StatusCountsAddUp(jobs[1..]);
    }
  }

  /** `job.alerts || []`: a job without an alert list has no alerts. */
  function AlertsOf(j: Job): seq<JobAlert>
  {
    j.alerts.GetOr([])
  }

  /** `alert-${Date.now()}`. */
  function AlertIdAt(now: nat): string
  {
    "alert-" + NatToString(now)
  }

  /** Alert ids made at different milliseconds differ; alerts made within the same millisecond
      share an id. */
  lemma AlertIdsDistinct(t1: nat, t2: nat)
    ensures AlertIdAt(t1) == AlertIdAt(t2) <==> t1 == t2
  {
    if AlertIdAt(t1) == AlertIdAt(t2) {
      assert NatToString(t1) == AlertIdAt(t1)[6..];
      NatToStringInjective(t1, t2);
    }
  }

  /** `Alert triggered for ${name} SLA`, where `name` is the lower-case alert type. */
  function AlertMessage(name: string): string
  {
    "Alert triggered for " + name + " SLA"
  }

  /** A new, unacknowledged alert of type `kind` made at `now`. */
  function NewAlert(kind: AlertType, now: nat): (a: JobAlert)
    ensures !a.acknowledged && a.kind == kind && a.timestamp == now
  {
    JobAlert(AlertIdAt(now), kind, AlertMessage(Lower(AlertTypeName(kind))), now, false)
  }

  /** `{ ...j, alerts: [...(j.alerts || []), a] }`. */
  function AppendAlert(j: Job, a: JobAlert): (r: Job)
    ensures AlertsOf(r) == AlertsOf(j) + [a]
    ensures r.(alerts := j.alerts) == j
  {
    j.(alerts := Some(AlertsOf(j) + [a]))
  }

  predicate Pending(a: JobAlert) { !a.acknowledged }

  /** The alerts still waiting for acknowledgement: every copy of each, in the order they were
      raised. */
  function Unacknowledged(alerts: seq<JobAlert>): (r: seq<JobAlert>)
    ensures forall a :: a in r <==> a in alerts && !a.acknowledged
    ensures forall a :: multiset(r)[a] == if a.acknowledged then 0 else multiset(alerts)[a]
    ensures Seqs.IsSubsequence(r, alerts)
  {
    Seqs.FilterMultiplicity(alerts, Pending);
    Seqs.FilterIsSubsequence(alerts, Pending);
    Seqs.Filter(alerts, Pending)
  }

  /** Appending alerts never deduplicates: two appends add two alerts, even of the same type
      and with the same id. */
  lemma {:induction false} AppendAlertTwice(j: Job, a: JobAlert, b: JobAlert)
    ensures |AlertsOf(AppendAlert(AppendAlert(j, a), b))| == |AlertsOf(j)| + 2
    ensures AlertsOf(AppendAlert(AppendAlert(j, a), b))[..|AlertsOf(j)|] == AlertsOf(j)
    ensures AlertsOf(AppendAlert(AppendAlert(j, a), b))[|AlertsOf(j)|..] == [a, b]
  {
    var r := AppendAlert(AppendAlert(j, a), b);
    assert AlertsOf(r) == AlertsOf(j) + [a] + [b];
  }

  /** The first job in `jobs` whose id is `id`: `jobs.find(j => j.id === id)`. */
  function FindById(jobs: seq<Job>, id: string): (r: Option<Job>)
    ensures r.None? <==> forall k :: 0 <= k < |jobs| ==> jobs[k].id != id
    ensures r.Some? ==> exists k :: 0 <= k < |jobs| && jobs[k] == r.value && r.value.id == id
                          && forall m :: 0 <= m < k ==> jobs[m].id != id
  {
    if jobs == [] then None
    else if jobs[0].id == id then Some(jobs[0])
    else
      var r := FindById(jobs[1..], id);
      assert forall m :: 1 <= m < |jobs| ==> jobs[m] == jobs[1..][m - 1];
      r
  }
}
