/** The top-level page (src/pages/Index.tsx): the live job list every other view reads and
    updates, which view is on screen, the selected customer, and the handlers that create a job,
    save an edited one and move between views. */
module IndexPage {

  import opened Maybe
  import opened Text
  import opened Jobs

  /** 'master' | 'customer' | 'alerts' | 'wizard'. */
  datatype View = MasterView | CustomerView | AlertsView | WizardView

  /** What the page renders. `Blank` is the `null` the customer and alerts views render when no
      customer is selected. */
  datatype Screen =
    | DetailScreen
    | MasterScreen
    | CustomerScreen(customer: Customer)
    | AlertsScreen(customer: Customer)
    | WizardScreen
    | Blank

  /** The early return for a `jobId` route parameter (an empty parameter is falsy), then
      `renderCurrentView`. */
  function RenderView(routeJobId: Option<string>, view: View, selected: Option<Customer>): Screen
  {
    if routeJobId.Some? && routeJobId.value != "" then DetailScreen
    else match view
      case MasterView => MasterScreen
      case CustomerView => if selected.Some? then CustomerScreen(selected.value) else Blank
      case AlertsView => if selected.Some? then AlertsScreen(selected.value) else Blank
      case WizardView => WizardScreen
  }

  /** A job id in the route shows the detail page whatever the current view; without one, the
      page renders nothing exactly when the customer or alerts view is current and no customer
      is selected, and the customer screens show the selected customer. */
  lemma RenderViewCases(routeJobId: Option<string>, view: View, selected: Option<Customer>)
    ensures routeJobId.Some? && routeJobId.value != "" ==> RenderView(routeJobId, view, selected) == DetailScreen
    ensures RenderView(routeJobId, view, selected) == Blank <==>
              (routeJobId.None? || routeJobId.value == "")
              && (view == CustomerView || view == AlertsView) && selected.None?
    ensures RenderView(routeJobId, view, selected).CustomerScreen? ==>
              view == CustomerView && selected == Some(RenderView(routeJobId, view, selected).customer)
    ensures RenderView(routeJobId, view, selected).AlertsScreen? ==>
              view == AlertsView && selected == Some(RenderView(routeJobId, view, selected).customer)
  {
  }

  /** The buttons of the rendered screens that change the view. */
  datatype NavEvent = CreateClicked | BackClicked | AlertsPortalClicked | WizardCancelled

  /** The view a button on `screen` switches to, or `None` when that screen has no such button:
      create on the master dashboard opens the wizard; back on the customer dashboard returns to
      the master view; the alerts portal button on the customer dashboard opens the portal; back
      in the portal returns to the customer dashboard; cancel in the wizard returns to the master
      view. */
  function Step(screen: Screen, e: NavEvent): Option<View>
  {
    match (screen, e)
    case (MasterScreen, CreateClicked) => Some(WizardView)
    case (CustomerScreen(_), BackClicked) => Some(MasterView)
    case (CustomerScreen(_), AlertsPortalClicked) => Some(AlertsView)
    case (AlertsScreen(_), BackClicked) => Some(CustomerView)
    case (WizardScreen, WizardCancelled) => Some(MasterView)
    case _ => None
  }

  /** The customer-dependent views are only reached from screens that already show a customer,
      and the detail page and the blank screen have no view buttons. */
  lemma StepGuarded(screen: Screen, e: NavEvent)
    ensures Step(screen, e) == Some(CustomerView) ==> screen.AlertsScreen?
    ensures Step(screen, e) == Some(AlertsView) ==> screen.CustomerScreen?
    ensures screen == DetailScreen || screen == Blank ==> Step(screen, e) == None
  {
  }

  /** `jobs.map(job => job.id === updated.id ? updated : job)`. */
  function ReplaceById(jobs: seq<Job>, updated: Job): (r: seq<Job>)
    ensures |r| == |jobs|
    ensures forall i :: 0 <= i < |jobs| ==> r[i] == if jobs[i].id == updated.id then updated else jobs[i]
  {
    seq(|jobs|, i requires 0 <= i < |jobs| => if jobs[i].id == updated.id then updated else jobs[i])
  }

  /** Saving a job with an id no job carries leaves the list unchanged. */
  lemma ReplaceUnknownId(jobs: seq<Job>, updated: Job)
    requires forall j :: j in jobs ==> j.id != updated.id
    ensures ReplaceById(jobs, updated) == jobs
  {
    var r := ReplaceById(jobs, updated);
    forall i | 0 <= i < |jobs|
      ensures r[i] == jobs[i]
    {
      assert jobs[i] in jobs;
    }
  }

  /** Saving the same job twice is saving it once. */
  lemma ReplaceIdempotent(jobs: seq<Job>, updated: Job)
    ensures ReplaceById(ReplaceById(jobs, updated), updated) == ReplaceById(jobs, updated)
  {
  }

  /** Saving keeps every job's id where it was, and after saving, looking the id up finds the
      saved job exactly when the list had a job with that id. */
  lemma {:induction false} ReplaceThenFind(jobs: seq<Job>, updated: Job)
    ensures forall i :: 0 <= i < |jobs| ==> ReplaceById(jobs, updated)[i].id == jobs[i].id
    ensures FindById(ReplaceById(jobs, updated), updated.id)
            == if FindById(jobs, updated.id).Some? then Some(updated) else None
  {
    var r := ReplaceById(jobs, updated);
    if jobs != [] {
      assert r[1..] == ReplaceById(jobs[1..], updated);
      if jobs[0].id == updated.id {
        assert r[0] == updated;
      } else {
        assert r[0] == jobs[0];
        ReplaceThenFind(jobs[1..], updated);
      }
    }
  }

  /** `job-${Date.now()}`. */
  function JobIdFor(now: nat): string
  {
    "job-" + NatToString(now)
  }

  /** Job ids made at different milliseconds differ. */
  lemma JobIdsDistinct(t1: nat, t2: nat)
    ensures JobIdFor(t1) == JobIdFor(t2) <==> t1 == t2
  {
    if JobIdFor(t1) == JobIdFor(t2) {
      assert NatToString(t1) == JobIdFor(t1)[4..];
      NatToStringInjective(t1, t2);
    }
  }

  /** The page's state. `customers` never changes; the edit modal's state is carried but only
      ever cleared here. */
  class Index {
    var jobs: seq<Job>
    const customers: seq<Customer>
    var currentView: View
    var selectedCustomer: Option<Customer>
    var selectedJob: Option<Job>
    var isEditModalOpen: bool

    /** The customer-dependent views are only current while a customer is selected. */
    ghost predicate Valid()
      reads this
    {
      (currentView == CustomerView || currentView == AlertsView) ==> selectedCustomer.Some?
    }

    /** The initial state: the given job list and customers, the master view, nothing selected. */
    constructor (initialJobs: seq<Job>, customers: seq<Customer>)
      ensures Valid()
      ensures jobs == initialJobs && this.customers == customers
      ensures currentView == MasterView && selectedCustomer == None && selectedJob == None
      ensures !isEditModalOpen
    {
      jobs := initialJobs;
      this.customers := customers;
      currentView := MasterView;
      selectedCustomer := None;
      selectedJob := None;
      isEditModalOpen := false;
    }

    /** What the page renders for the route's job id. */
    function Screen(routeJobId: Option<string>): Screen
      reads this
    {
      RenderView(routeJobId, currentView, selectedCustomer)
    }

    /** `handleJobCreate`: the wizard's job, with its id replaced by one made from the clock, goes
        to the front of the list, and the master view comes back. */
    method HandleJobCreate(newJob: Job, now: nat)
      requires Valid()
      modifies this`jobs, this`currentView
      ensures Valid()
      ensures jobs == [newJob.(id := JobIdFor(now))] + old(jobs)
      ensures currentView == MasterView
    {
      jobs := [newJob.(id := JobIdFor(now))] + jobs;
      currentView := MasterView;
    }

    /** `handleJobSave`: every job with the saved job's id is replaced by it, and the selected
        job is cleared. */
    method HandleJobSave(updated: Job)
      requires Valid()
      modifies this`jobs, this`selectedJob
      ensures Valid()
      ensures jobs == ReplaceById(old(jobs), updated)
      ensures selectedJob == None
    {
      jobs := ReplaceById(jobs, updated);
      selectedJob := None;
    }

    /** `handleCustomerSelect`. */
    method HandleCustomerSelect(c: Customer)
      requires Valid()
      modifies this`selectedCustomer, this`currentView
      ensures Valid()
      ensures selectedCustomer == Some(c) && currentView == CustomerView
    {
      selectedCustomer := Some(c);
      currentView := CustomerView;
    }

    /** A view button pressed on the rendered screen; a button the screen does not have changes
        nothing. */
    method Navigate(routeJobId: Option<string>, e: NavEvent)
      requires Valid()
      modifies this`currentView
      ensures Valid()
      ensures match Step(old(Screen(routeJobId)), e)
              case Some(v) => currentView == v
              case None => currentView == old(currentView)
    {
      var next := Step(Screen(routeJobId), e);
      if next.Some? {
        currentView := next.value;
      }
    }
  }

  /** In every state the page can reach, something is rendered: the blank screen never shows. */
  lemma NeverBlank(view: View, selected: Option<Customer>, routeJobId: Option<string>)
    requires (view == CustomerView || view == AlertsView) ==> selected.Some?
    ensures RenderView(routeJobId, view, selected) != Blank
  {
  }

  /** Creating a job from the master view and then opening its detail page finds that job. */
  method CreateThenOpen(initialJobs: seq<Job>, customers: seq<Customer>, newJob: Job, now: nat)
    returns (found: Option<Job>, count: nat)
    ensures found == Some(newJob.(id := JobIdFor(now)))
    ensures count == |initialJobs| + 1
  {
    var page := new Index(initialJobs, customers);
    page.Navigate(None, CreateClicked);
    page.HandleJobCreate(newJob, now);
    found := FindById(page.jobs, JobIdFor(now));
    count := |page.jobs|;
  }
}
