/** The customer alerts portal (src/components/CustomerAlertsPortal.tsx): one customer's jobs,
    grouped by engineer; a ledger of portal alerts that are raised from a dialog and later
    resolved; and the job-level alert the portal hands to `onJobUpdate`. */
module AlertsPortal {

  import opened Maybe
  import opened Text
  import opened Jobs
  import opened JobKeys
  import Seqs

  /** `customerJobs`: the jobs whose customer is exactly `customer.name`, in order. */
  function CustomerJobs(jobs: seq<Job>, customer: Customer): (r: seq<Job>)
    ensures forall j :: j in r <==> j in jobs && j.customer == customer.name
    ensures forall j :: multiset(r)[j] == if j.customer == customer.name then multiset(jobs)[j] else 0
  {
    Seqs.FilterMultiplicity(jobs, KeyIs(CustomerOf, customer.name));
    Seqs.Filter(jobs, KeyIs(CustomerOf, customer.name))
  }

  /** The customer's jobs keep the order of the job list. */
  lemma CustomerJobsInOrder(jobs: seq<Job>, customer: Customer)
    ensures Seqs.IsSubsequence(CustomerJobs(jobs, customer), jobs)
  {
    Seqs.FilterIsSubsequence(jobs, KeyIs(CustomerOf, customer.name));
  }

  /** The group sizes of `groups`, taken in the order `order` lists the engineers. */
  function GroupSizes(groups: map<string, seq<Job>>, order: seq<string>): (r: seq<nat>)
    requires forall e :: e in order ==> e in groups
    ensures |r| == |order|
    ensures forall i :: 0 <= i < |order| ==> r[i] == |groups[order[i]]|
  {
    seq(|order|, i requires 0 <= i < |order| => |groups[order[i]]|)
  }

  /** `groups` and `order` are what grouping `jobs` by engineer gives: the engineers in order of
      first appearance, and for each of them one non-empty group holding that engineer's jobs in
      order. */
  ghost predicate Grouped(jobs: seq<Job>, groups: map<string, seq<Job>>, order: seq<string>)
  {
    && order == FirstOccurrences(KeysOf(jobs, EngineerOf))
    && (forall e :: e in groups <==> e in order)
    && (forall e :: e in groups ==> groups[e] == Seqs.Filter(jobs, KeyIs(EngineerOf, e)))
    && (forall e :: e in groups ==> groups[e] != [])
  }

  /** `acc` after `if (!acc[job.engineer]) acc[job.engineer] = []; acc[job.engineer].push(job)`. */
  function Pushed(groups: map<string, seq<Job>>, job: Job): map<string, seq<Job>>
  {
    var e := job.engineer;
    var created := if e in groups then groups else groups[e := []];
    created[e := created[e] + [job]]
  }

  /** The engineers in the order their groups were created, after `job`. */
  function PushedOrder(order: seq<string>, groups: map<string, seq<Job>>, job: Job): seq<string>
  {
    if job.engineer in groups then order else order + [job.engineer]
  }

  /** Pushing one more job onto its engineer's group keeps each group exact. */
  lemma PushedGroups(jobs: seq<Job>, job: Job, groups: map<string, seq<Job>>, order: seq<string>)
    requires Grouped(jobs, groups, order)
    ensures forall e :: e in Pushed(groups, job) ==>
              Pushed(groups, job)[e] == Seqs.Filter(jobs + [job], KeyIs(EngineerOf, e))
  {
    var groups' := Pushed(groups, job);
    var e0 := job.engineer;
    forall e | e in groups'
      ensures groups'[e] == Seqs.Filter(jobs + [job], KeyIs(EngineerOf, e))
    {
      Seqs.FilterSnoc(jobs, job, KeyIs(EngineerOf, e));
      if e != e0 {
        assert EngineerOf(job) != e;
        assert groups'[e] == groups[e];
      } else if e0 in groups {
        assert EngineerOf(job) == e;
      } else {
        assert EngineerOf(job) == e;
        KeyAbsent(jobs, EngineerOf, e0);
      }
    }
  }

  /** The engineers' first-appearance order grows by the new job's engineer when it is new. */
  lemma PushedFirstOccurrences(jobs: seq<Job>, job: Job, order: seq<string>)
    requires order == FirstOccurrences(KeysOf(jobs, EngineerOf))
    ensures FirstOccurrences(KeysOf(jobs + [job], EngineerOf))
            == if job.engineer in order then order else order + [job.engineer]
  {
    var keys := KeysOf(jobs + [job], EngineerOf);
    assert keys[..|keys| - 1] == KeysOf(jobs, EngineerOf);
  }

  /** Pushing one more job onto its engineer's group, creating the group on the engineer's first
      job, keeps the grouping exact. */
  lemma GroupedStep(jobs: seq<Job>, job: Job, groups: map<string, seq<Job>>, order: seq<string>)
    requires Grouped(jobs, groups, order)
    ensures Grouped(jobs + [job], Pushed(groups, job), PushedOrder(order, groups, job))
  {
    var longer := jobs + [job];
    var groups' := Pushed(groups, job);
    var order' := PushedOrder(order, groups, job);
    PushedGroups(jobs, job, groups, order);
    PushedFirstOccurrences(jobs, job, order);
    PushedKeys(groups, order, job);
    assert Grouped(longer, groups', order');
  }

  /** The pushed groups are non-empty and have the engineers of the grown order as keys. */
  lemma PushedKeys(groups: map<string, seq<Job>>, order: seq<string>, job: Job)
    requires forall e :: e in groups <==> e in order
    requires forall e :: e in groups ==> groups[e] != []
    ensures forall e :: e in Pushed(groups, job) <==> e in PushedOrder(order, groups, job)
    ensures forall e :: e in Pushed(groups, job) ==> Pushed(groups, job)[e] != []
  {
  }

  /** The step of the loop: pushing `jobs[n]` takes a grouping of the first `n` jobs to one of
      the first `n + 1`. */
  lemma GroupedNext(jobs: seq<Job>, n: nat, groups: map<string, seq<Job>>, order: seq<string>)
    requires n < |jobs| && Grouped(jobs[..n], groups, order)
    ensures Grouped(jobs[..n + 1], Pushed(groups, jobs[n]), PushedOrder(order, groups, jobs[n]))
  {
    GroupedStep(jobs[..n], jobs[n], groups, order);
    assert jobs[..n + 1] == jobs[..n] + [jobs[n]];
  }

  /** A grouping has a group for each engineer of the jobs and no other, and its sizes, taken
      in order, add up to the number of jobs. */
  lemma GroupedSizes(jobs: seq<Job>, groups: map<string, seq<Job>>, order: seq<string>)
    requires Grouped(jobs, groups, order)
    ensures forall e :: e in groups <==> e in KeysOf(jobs, EngineerOf)
    ensures Seqs.Sum(GroupSizes(groups, order)) == |jobs|
  {
    forall j | j in jobs
      ensures EngineerOf(j) in order
    {
      KeysOfMember(jobs, EngineerOf, j);
    }
    CountsByNameCover(order, EngineerOf, jobs);
    var sizes := GroupSizes(groups, order);
    var counts := CountsByName(order, EngineerOf, jobs);
    forall i | 0 <= i < |order|
      ensures sizes[i] == counts[i]
    {
      assert order[i] in groups;
    }
    assert sizes == counts;
  }

  /** The reducer's body for one job: create the engineer's list if it is missing, then push the
      job onto it. */
  method PushJob(groups: map<string, seq<Job>>, order: seq<string>, job: Job)
    returns (groups': map<string, seq<Job>>, order': seq<string>)
    ensures groups' == Pushed(groups, job) && order' == PushedOrder(order, groups, job)
  {
    groups', order' := groups, order;
    if job.engineer !in groups' {
      order' := order' + [job.engineer];
      groups' := groups'[job.engineer := []];
    }
    groups' := groups'[job.engineer := groups'[job.engineer] + [job]];
  }

  /** `jobsByEngineer`: the `reduce` that pushes each job onto its engineer's list, creating the
      list on the engineer's first job. `order` is the order in which the engineers' lists were
      created, which is the order `Object.entries` lists them in. The groups partition the
      jobs: each job is in its engineer's group only, in order, no group is empty, and the sizes
      add up to the number of jobs. */
  method GroupByEngineer(jobs: seq<Job>) returns (groups: map<string, seq<Job>>, order: seq<string>)
    ensures forall e :: e in groups <==> e in KeysOf(jobs, EngineerOf)
    ensures forall e :: e in groups ==> groups[e] == Seqs.Filter(jobs, KeyIs(EngineerOf, e))
    ensures forall e :: e in groups ==> groups[e] != []
    ensures order == FirstOccurrences(KeysOf(jobs, EngineerOf))
    ensures forall e :: e in order <==> e in groups
    ensures Seqs.Sum(GroupSizes(groups, order)) == |jobs|
  {
    groups := map[];
    order := [];
    var n := 0;
    while n < |jobs|
      invariant 0 <= n <= |jobs|
      invariant Grouped(jobs[..n], groups, order)
    {
      GroupedNext(jobs, n, groups, order);
      groups, order := PushJob(groups, order, jobs[n]);
      n := n + 1;
    }
    assert jobs[..n] == jobs;
    GroupedSizes(jobs, groups, order);
  }

  /** The two alert kinds the portal raises: 'accepted' | 'onsite'. */
  datatype PortalAlertType = PortalAccepted | PortalOnsite

  datatype AlertStatus = Active | Resolved

  /** The portal's own alert record. */
  datatype PortalAlert = PortalAlert(
    id: string,
    jobId: string,
    engineerName: string,
    kind: PortalAlertType,
    timestamp: Timestamp,
    status: AlertStatus)

  /** The string a portal alert type compares equal to. */
  function PortalTypeName(t: PortalAlertType): string
  {
    match t
    case PortalAccepted => "accepted"
    case PortalOnsite => "onsite"
  }

  /** `alertType.toUpperCase() as JobAlert['type']`: the job-level type whose name is the
      upper-cased portal type. */
  function ToJobAlertType(t: PortalAlertType): (k: AlertType)
    ensures AlertTypeName(k) == Upper(PortalTypeName(t))
    ensures Lower(AlertTypeName(k)) == PortalTypeName(t)
  {
    match t
    case PortalAccepted =>
      assert Upper("accepted") == "ACCEPTED";
      assert Lower("ACCEPTED") == "accepted";
      Accepted
    case PortalOnsite =>
      assert Upper("onsite") == "ONSITE";
      assert Lower("ONSITE") == "onsite";
      Onsite
  }

  /** The alert the portal adds to the selected job. */
  function PortalJobAlert(t: PortalAlertType, now: nat): JobAlert
  {
    JobAlert(AlertIdAt(now), ToJobAlertType(t), AlertMessage(PortalTypeName(t)), now, false)
  }

  /** The portal builds the same job alert the job detail page's "add alert" builds for the
      corresponding type: same id, message, time and an unacknowledged flag. */
  lemma PortalAlertIsDetailAlert(t: PortalAlertType, now: nat)
    ensures PortalJobAlert(t, now) == NewAlert(ToJobAlertType(t), now)
    ensures !PortalJobAlert(t, now).acknowledged
  {
  }

  /** `alerts.map(a => a.id === id ? { ...a, status: 'resolved' } : a)`. */
  function ResolveById(alerts: seq<PortalAlert>, id: string): (r: seq<PortalAlert>)
    ensures |r| == |alerts|
    ensures forall i :: 0 <= i < |alerts| ==>
              (r[i].status == if alerts[i].id == id then Resolved else alerts[i].status)
              && r[i].(status := alerts[i].status) == alerts[i]
  {
    if alerts == [] then []
    else [if alerts[0].id == id then alerts[0].(status := Resolved) else alerts[0]]
         + ResolveById(alerts[1..], id)
  }

  /** Resolving twice has no further effect. */
  lemma ResolveIdempotent(alerts: seq<PortalAlert>, id: string)
    ensures ResolveById(ResolveById(alerts, id), id) == ResolveById(alerts, id)
  {
  }

  /** Resolving an id no alert carries changes nothing. */
  lemma ResolveUnknownId(alerts: seq<PortalAlert>, id: string)
    requires forall a :: a in alerts ==> a.id != id
    ensures ResolveById(alerts, id) == alerts
  {
    var r := ResolveById(alerts, id);
    forall i | 0 <= i < |alerts|
      ensures r[i] == alerts[i]
    {
      assert alerts[i] in alerts;
    }
  }

  predicate IsActiveAlert(a: PortalAlert) { a.status == Active }

  /** `alert => alert.id !== id`. */
  function IdIsNot(id: string): PortalAlert -> bool
  {
    (a: PortalAlert) => a.id != id
  }

  /** `activeAlerts`: the alerts still active, in the order they were raised. */
  function ActiveAlerts(alerts: seq<PortalAlert>): (r: seq<PortalAlert>)
    ensures forall a :: a in r <==> a in alerts && a.status == Active
    ensures forall a :: multiset(r)[a] == if a.status == Active then multiset(alerts)[a] else 0
    ensures Seqs.IsSubsequence(r, alerts)
  {
    Seqs.FilterMultiplicity(alerts, IsActiveAlert);
    Seqs.FilterIsSubsequence(alerts, IsActiveAlert);
    Seqs.Filter(alerts, IsActiveAlert)
  }

  /** Resolving an id takes exactly the alerts with that id off the active list and leaves the
      rest of it, in order. */
  lemma {:induction false} ResolveLeavesActive(alerts: seq<PortalAlert>, id: string)
    ensures ActiveAlerts(ResolveById(alerts, id)) == Seqs.Filter(ActiveAlerts(alerts), IdIsNot(id))
  {
    if alerts != [] {
      ResolveLeavesActive(alerts[1..], id);
      var head := if alerts[0].id == id then alerts[0].(status := Resolved) else alerts[0];
      assert ResolveById(alerts, id) == [head] + ResolveById(alerts[1..], id);
      assert ResolveById(alerts, id)[1..] == ResolveById(alerts[1..], id);
    }
  }

  /** The alert history: every alert, newest first (`alerts.slice().reverse()`). */
  function History(alerts: seq<PortalAlert>): (r: seq<PortalAlert>)
    ensures |r| == |alerts|
    ensures forall k :: 0 <= k < |alerts| ==> r[k] == alerts[|alerts| - 1 - k]
  {
    Seqs.Reverse(alerts)
  }

  /** A newly raised alert heads the history, followed by the history before it. */
  lemma HistoryNewestFirst(alerts: seq<PortalAlert>, a: PortalAlert)
    ensures History(alerts + [a]) == [a] + History(alerts)
  {
    var h := History(alerts + [a]);
    assert h[0] == a;
    forall k | 1 <= k < |h|
      ensures h[k] == History(alerts)[k - 1]
    {
    }
  }

  /** The portal's state for one customer. */
  class Portal {
    const customer: Customer
    var alerts: seq<PortalAlert>
    var selectedJob: Option<Job>
    var alertType: PortalAlertType
    var isDialogOpen: bool

    constructor (customer: Customer)
      ensures this.customer == customer
      ensures alerts == [] && selectedJob == None && alertType == PortalAccepted && !isDialogOpen
    {
      this.customer := customer;
      alerts := [];
      selectedJob := None;
      alertType := PortalAccepted;
      isDialogOpen := false;
    }

    /** "Add Alert" on a job card: selects the job and opens the dialog. */
    method OpenAddAlert(j: Job)
      modifies this
      ensures selectedJob == Some(j) && isDialogOpen
      ensures alerts == old(alerts) && alertType == old(alertType)
    {
      selectedJob := Some(j);
      isDialogOpen := true;
    }

    /** The alert-type selector. */
    method SetAlertType(t: PortalAlertType)
      modifies this`alertType
      ensures alertType == t
    {
      alertType := t;
    }

    /** "Cancel" or dismissing the dialog: closes it and keeps the selection. */
    method CloseDialog()
      modifies this`isDialogOpen
      ensures !isDialogOpen
    {
      isDialogOpen := false;
    }

    /** `handleAddAlert`. Without a selected job it does nothing. Otherwise it appends one active
        portal alert for the selected job and its engineer, closes the dialog and clears the
        selection; when `hasJobUpdate` (an `onJobUpdate` callback is present) it also returns
        the selected job with one more, unacknowledged alert of the upper-cased type at the end
        of its alert list, for the caller to save. `portalNow` is the clock reading the portal
        alert carries and `jobNow` the one the job alert carries. */
    method HandleAddAlert(hasJobUpdate: bool, portalNow: nat, jobNow: nat) returns (sent: Option<Job>)
      modifies this
      ensures alertType == old(alertType)
      ensures old(selectedJob).None? ==>
                && alerts == old(alerts) && selectedJob == None
                && isDialogOpen == old(isDialogOpen) && sent == None
      ensures old(selectedJob).Some? ==>
                var j := old(selectedJob).value;
                && alerts == old(alerts) + [PortalAlert(AlertIdAt(portalNow), j.id, j.engineer,
                                                        alertType, portalNow, Active)]
                && !isDialogOpen && selectedJob == None
                && sent == (if hasJobUpdate then Some(AppendAlert(j, PortalJobAlert(alertType, jobNow)))
                            else None)
    {
      sent := None;
      if selectedJob.None? {
        return;
      }
      var j := selectedJob.value;
      alerts := alerts + [PortalAlert(AlertIdAt(portalNow), j.id, j.engineer, alertType, portalNow, Active)];
      isDialogOpen := false;
      if hasJobUpdate {
        sent := Some(AppendAlert(j, PortalJobAlert(alertType, jobNow)));
      }
      selectedJob := None;
    }

    /** `resolveAlert(id)`. */
    method ResolveAlert(id: string)
      modifies this`alerts
      ensures alerts == ResolveById(old(alerts), id)
    {
      alerts := ResolveById(alerts, id);
    }
  }

  /** A portal session that raises an alert on a job and resolves it: the ledger holds one
      resolved alert for that job, nothing is active, and the job sent up carries exactly one
      more alert, at the end, unacknowledged, with every other field as it was. */
  method RaiseThenResolve(customer: Customer, j: Job, t: PortalAlertType, now: nat)
    returns (ledger: seq<PortalAlert>, active: seq<PortalAlert>, sent: Option<Job>)
    ensures |ledger| == 1 && ledger[0].jobId == j.id && ledger[0].status == Resolved
    ensures active == []
    ensures sent.Some? && AlertsOf(sent.value) == AlertsOf(j) + [NewAlert(ToJobAlertType(t), now)]
    ensures sent.Some? && sent.value.(alerts := j.alerts) == j
  {
    var portal := new Portal(customer);
    portal.OpenAddAlert(j);
    portal.SetAlertType(t);
    sent := portal.HandleAddAlert(true, now, now);
    portal.ResolveAlert(AlertIdAt(now));
    ledger := portal.alerts;
    active := ActiveAlerts(ledger);
    PortalAlertIsDetailAlert(t, now);
    assert ledger[0] in ledger;
  }
}
