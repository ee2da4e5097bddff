/** The job detail page (src/pages/JobDetailPage.tsx): looks a job up by the route's id, keeps
    an edit session — the saved `job`, the draft `editedJob` and the `isEditing` flag — and
    lets the user raise and acknowledge alerts on the draft. */
module JobDetail {

  import opened Maybe
  import opened Jobs
  import Seqs

  /** `alerts.map(a => a.id === id ? { ...a, acknowledged: true } : a)`. */
  function AcknowledgeById(alerts: seq<JobAlert>, id: string): (r: seq<JobAlert>)
    ensures |r| == |alerts|
    ensures forall i :: 0 <= i < |alerts| ==>
              r[i].acknowledged == (alerts[i].acknowledged || alerts[i].id == id)
              && r[i].(acknowledged := alerts[i].acknowledged) == alerts[i]
  {
    seq(|alerts|, i requires 0 <= i < |alerts| =>
      if alerts[i].id == id then alerts[i].(acknowledged := true) else alerts[i])
  }

  /** Acknowledging twice has no further effect. */
  lemma AcknowledgeIdempotent(alerts: seq<JobAlert>, id: string)
    ensures AcknowledgeById(AcknowledgeById(alerts, id), id) == AcknowledgeById(alerts, id)
  {
  }

  /** Acknowledging an id that no alert carries changes nothing. */
  lemma AcknowledgeUnknownId(alerts: seq<JobAlert>, id: string)
    requires forall a :: a in alerts ==> a.id != id
    ensures AcknowledgeById(alerts, id) == alerts
  {
    var r := AcknowledgeById(alerts, id);
    forall i | 0 <= i < |alerts|
      ensures r[i] == alerts[i]
    {
      assert alerts[i] in alerts;
    }
  }

  /** Acknowledging an id acknowledges every alert that carries it, so alerts that share a
      timestamp-made id are acknowledged together. */
  lemma AcknowledgeSharedId(alerts: seq<JobAlert>, id: string, i: int, k: int)
    requires 0 <= i < |alerts| && 0 <= k < |alerts|
    requires alerts[i].id == id && alerts[k].id == id
    ensures AcknowledgeById(alerts, id)[i].acknowledged && AcknowledgeById(alerts, id)[k].acknowledged
  {
  }

  /** Acknowledging distributes over an append. */
  lemma AcknowledgeAppend(a: seq<JobAlert>, b: seq<JobAlert>, id: string)
    ensures AcknowledgeById(a + b, id) == AcknowledgeById(a, id) + AcknowledgeById(b, id)
  {
  }

  /** Raising an alert with a fresh id and then acknowledging it leaves the list of alerts
      waiting for acknowledgement as it was before. */
  lemma RaiseThenAcknowledge(j: Job, kind: AlertType, now: nat)
    requires forall a :: a in AlertsOf(j) ==> a.id != AlertIdAt(now)
    ensures Unacknowledged(AcknowledgeById(AlertsOf(AppendAlert(j, NewAlert(kind, now))), AlertIdAt(now)))
            == Unacknowledged(AlertsOf(j))
  {
    var before := AlertsOf(j);
    var raised := NewAlert(kind, now);
    var acked := raised.(acknowledged := true);
    AcknowledgeAppend(before, [raised], AlertIdAt(now));
    AcknowledgeUnknownId(before, AlertIdAt(now));
    assert AcknowledgeById([raised], AlertIdAt(now)) == [acked];
    assert AcknowledgeById(before + [raised], AlertIdAt(now)) == before + [acked];
    Seqs.FilterSnoc(before, acked, Pending);
  }

  /** The job a draft would hold after `acknowledgeAlert(id)`: `alerts?.map(...) || []`, so a
      job without an alert list comes back with an empty one. */
  function AcknowledgeIn(j: Job, id: string): (r: Job)
    ensures r.alerts == Some(AcknowledgeById(AlertsOf(j), id))
    ensures r.(alerts := j.alerts) == j
  {
    j.(alerts := Some(match j.alerts case None => [] case Some(a) => AcknowledgeById(a, id)))
  }

  /** The edit controls shown in edit mode, each setting one field of the draft. */
  datatype DraftEdit =
    | EditCustomer(customer: string)
    | EditSite(site: string)
    | EditEngineer(engineer: string)
    | EditStatus(status: Status)
    | EditPriority(priority: Priority)
    | EditCategory(category: Category)
    | EditDescription(description: string)
    | EditContactName(name: string)
    | EditContactNumber(number: string)
    | EditContactEmail(email: string)
    | EditContactRelationship(relationship: string)

  /** The draft after one edit control changed: `{ ...prev, field: value }`, or for the contact
      fields `{ ...prev, contact: { ...prev.contact, field: value } }`. */
  function ApplyEdit(j: Job, e: DraftEdit): (r: Job)
    ensures r.id == j.id && r.alerts == j.alerts && r.dateLogged == j.dateLogged
    ensures r.status == (if e.EditStatus? then e.status else j.status)
    ensures r.customer == (if e.EditCustomer? then e.customer else j.customer)
    ensures r.site == (if e.EditSite? then e.site else j.site)
    ensures r.engineer == (if e.EditEngineer? then e.engineer else j.engineer)
    ensures r.priority == (if e.EditPriority? then e.priority else j.priority)
    ensures r.category == (if e.EditCategory? then e.category else j.category)
    ensures r.description == (if e.EditDescription? then e.description else j.description)
    ensures r.contact.name == (if e.EditContactName? then e.name else j.contact.name)
    ensures r.contact.number == (if e.EditContactNumber? then e.number else j.contact.number)
    ensures r.contact.email == (if e.EditContactEmail? then e.email else j.contact.email)
    ensures r.contact.relationship
            == (if e.EditContactRelationship? then e.relationship else j.contact.relationship)
    ensures r.(customer := j.customer, site := j.site, engineer := j.engineer, status := j.status,
               priority := j.priority, category := j.category, description := j.description,
               contact := j.contact) == j
  {
    match e
    case EditCustomer(v) => j.(customer := v)
    case EditSite(v) => j.(site := v)
    case EditEngineer(v) => j.(engineer := v)
    case EditStatus(v) => j.(status := v)
    case EditPriority(v) => j.(priority := v)
    case EditCategory(v) => j.(category := v)
    case EditDescription(v) => j.(description := v)
    case EditContactName(v) => j.(contact := j.contact.(name := v))
    case EditContactNumber(v) => j.(contact := j.contact.(number := v))
    case EditContactEmail(v) => j.(contact := j.contact.(email := v))
    case EditContactRelationship(v) => j.(contact := j.contact.(relationship := v))
  }

  /** Field edits and alert changes touch disjoint parts of the draft, so their order does not
      matter. */
  lemma EditCommutesWithAlerts(j: Job, e: DraftEdit, a: JobAlert, id: string)
    ensures ApplyEdit(AppendAlert(j, a), e) == AppendAlert(ApplyEdit(j, e), a)
    ensures ApplyEdit(AcknowledgeIn(j, id), e) == AcknowledgeIn(ApplyEdit(j, e), id)
  {
  }

  /** The page's state. `job` is the last saved value; `editedJob` is the draft that the edit
      controls, the alert buttons and Save work on. */
  class JobDetailPage {
    var job: Option<Job>
    var editedJob: Option<Job>
    var isEditing: bool

    /** A draft exists exactly when a job was found, and it is a draft of that job. */
    ghost predicate Valid()
      reads this
    {
      && (job.Some? <==> editedJob.Some?)
      && (job.Some? ==> editedJob.value.id == job.value.id)
    }

    constructor ()
      ensures Valid()
      ensures job == None && editedJob == None && !isEditing
    {
      job := None;
      editedJob := None;
      isEditing := false;
    }

    /** The job the page shows: the draft while editing, the saved job otherwise. There is one
        exactly when the not-found view is not shown, and it is always a version of the saved
        job. */
    function CurrentJob(): (r: Option<Job>)
      reads this
      requires Valid()
      ensures r.None? <==> ShowsNotFound()
      ensures r.Some? ==> r.value.id == job.value.id
      ensures !isEditing ==> r == job
      ensures isEditing ==> r == editedJob
    {
      if isEditing then editedJob else job
    }

    /** The page shows "Job Not Found" while no job has been found. */
    predicate ShowsNotFound()
      reads this
    {
      job.None?
    }

    /** The lookup effect: the first job whose id is the route's id becomes both the saved job
        and the draft; when none matches, nothing changes. */
    method Load(jobs: seq<Job>, routeId: string)
      requires Valid()
      modifies this
      ensures Valid()
      ensures isEditing == old(isEditing)
      ensures ShowsNotFound() <==> old(ShowsNotFound()) && FindById(jobs, routeId).None?
      ensures match FindById(jobs, routeId)
              case Some(found) => job == Some(found) && editedJob == Some(found)
              case None => job == old(job) && editedJob == old(editedJob)
    {
      var found := FindById(jobs, routeId);
      if found.Some? {
        job := found;
        editedJob := found;
      }
    }

    /** "Edit Job". */
    method StartEditing()
      modifies this`isEditing
      ensures isEditing
    {
      isEditing := true;
    }

    /** `handleSave`: with a draft, hands it to `onJobUpdate` (returned here as `sent`), makes it
        the saved job and leaves edit mode; without one, does nothing. */
    method HandleSave() returns (sent: Option<Job>)
      requires Valid()
      modifies this
      ensures Valid()
      ensures sent == old(editedJob)
      ensures editedJob == old(editedJob)
      ensures old(editedJob).Some? ==> job == old(editedJob) && !isEditing
      ensures old(editedJob).None? ==> job == old(job) && isEditing == old(isEditing)
    {
      sent := editedJob;
      if editedJob.Some? {
        job := editedJob;
        isEditing := false;
      }
    }

    /** `handleCancel`: the draft goes back to the saved job, discarding every unsaved edit and
        alert, and edit mode ends. */
    method HandleCancel()
      requires Valid()
      modifies this
      ensures Valid()
      ensures editedJob == job == old(job) && !isEditing
      ensures CurrentJob() == job
    {
      editedJob := job;
      isEditing := false;
    }

    /** `addAlert(kind)`: appends one new unacknowledged alert to the draft; without a draft,
        does nothing. The saved job is untouched. */
    method AddAlert(kind: AlertType, now: nat)
      requires Valid()
      modifies this`editedJob
      ensures Valid()
      ensures editedJob == match old(editedJob)
                           case None => None
                           case Some(d) => Some(AppendAlert(d, NewAlert(kind, now)))
    {
      if editedJob.Some? {
        editedJob := Some(AppendAlert(editedJob.value, NewAlert(kind, now)));
      }
    }

    /** `acknowledgeAlert(id)`: acknowledges the draft's alerts with that id; without a draft,
        does nothing. The saved job is untouched. */
    method AcknowledgeAlert(id: string)
      requires Valid()
      modifies this`editedJob
      ensures Valid()
      ensures editedJob == match old(editedJob)
                           case None => None
                           case Some(d) => Some(AcknowledgeIn(d, id))
    {
      if editedJob.Some? {
        editedJob := Some(AcknowledgeIn(editedJob.value, id));
      }
    }

    /** An edit control: `setEditedJob(prev => prev ? { ...prev, ... } : null)`. The status,
        in particular, changes only here, explicitly. */
    method Edit(e: DraftEdit)
      requires Valid()
      modifies this`editedJob
      ensures Valid()
      ensures editedJob == match old(editedJob)
                           case None => None
                           case Some(d) => Some(ApplyEdit(d, e))
    {
      if editedJob.Some? {
        editedJob := Some(ApplyEdit(editedJob.value, e));
      }
    }
  }

  /** Opening the page for a route id: "Job Not Found" exactly when no job has that id, and
      otherwise the page shows the first job with it. */
  method OpenJob(jobs: seq<Job>, routeId: string) returns (notFound: bool, shown: Option<Job>)
    ensures notFound <==> (forall j :: j in jobs ==> j.id != routeId)
    ensures shown == FindById(jobs, routeId)
  {
    var page := new JobDetailPage();
    page.Load(jobs, routeId);
    notFound := page.ShowsNotFound();
    shown := page.CurrentJob();
  }

  /** A session that raises an alert and then cancels: the draft is the saved job again, and the
      alert is gone. */
  method RaiseThenCancel(jobs: seq<Job>, routeId: string, now: nat) returns (saved: Option<Job>, draft: Option<Job>, shown: Option<Job>)
    ensures saved == FindById(jobs, routeId)
    ensures draft == saved
    ensures shown == saved
  {
    var page := new JobDetailPage();
    page.Load(jobs, routeId);
    page.StartEditing();
    page.AddAlert(Accepted, now);
    page.HandleCancel();
    saved, draft, shown := page.job, page.editedJob, page.CurrentJob();
  }

  /** A session that raises an alert and saves: the job handed to `onJobUpdate` carries exactly
      one more alert, at the end, unacknowledged. */
  method RaiseThenSave(jobs: seq<Job>, routeId: string, now: nat) returns (sent: Option<Job>)
    ensures FindById(jobs, routeId).None? ==> sent.None?
    ensures FindById(jobs, routeId).Some? ==>
              sent == Some(AppendAlert(FindById(jobs, routeId).value, NewAlert(Accepted, now)))
  {
    var page := new JobDetailPage();
    page.Load(jobs, routeId);
    page.StartEditing();
    page.AddAlert(Accepted, now);
    sent := page.HandleSave();
  }
}
