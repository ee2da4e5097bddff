# Out-of-hours job dashboard: a Dafny model of its list and alert logic

The dashboard tracks service jobs for customers. Each job has an engineer, a green / amber / red
status, a priority, a logged date, SLA minutes and an optional list of alerts. This project
models the logic inside its React components. That logic is a set of small in-memory list
operations:

- **Job store and navigation** (`Index.tsx`): the live job list, the current view and the
  selected customer. New jobs are prepended, and saved jobs replace the old ones by id.
- **Job detail page** (`JobDetailPage.tsx`): looks a job up by the route's id and keeps a saved
  copy and a draft. Field edits, "add alert" and "acknowledge" change only the draft. Save
  commits the draft and cancel discards it.
- **Master dashboard** (`MasterDashboard.tsx`): the search / status / priority filter, the
  headline counts, today's end-of-shift summary with its truncated follow-up list, and the SLA
  figures with their defaults.
- **End-of-shift report** (`EndOfShiftReport.tsx`): selects jobs by day and engineer, then
  counts statuses and distinct customers and sites. It also computes the completion rate, the
  per-engineer and per-customer rows, and the minutes-to-"Hh Mm" formatter.
- **Customer alerts portal** (`CustomerAlertsPortal.tsx`): one customer's jobs grouped by
  engineer, and a ledger of portal alerts that are raised and resolved. It also builds the
  job-level alert it hands back up.
- **Types** (`job.ts`): the records and enums.

Module layout:

- `option.dfy` (`Maybe`): the option type.
- `seqs.dfy` (`Seqs`): `Array.prototype.filter` and order-preserving subsequences. Also the
  image of a key (what `new Set(xs.map(f))` holds), sums and reversal.
- `text.dfy` (`Text`): ASCII `toLowerCase` / `toUpperCase`, `includes`, and decimal printing
  with its parser.
- `job.dfy` (`Jobs`): the types, the status and priority names, alert construction, appending
  alerts, and `find` by id.
- `job_keys.dfy` (`JobKeys`): per-name filters, how their counts add up, and first-appearance
  order.
- One module per component: `JobDetail`, `MasterDashboard`, `ShiftReport`, `AlertsPortal` and
  `IndexPage`.

Components that update state step by step are classes whose fields are that state:
`JobDetail.JobDetailPage`, `AlertsPortal.Portal` and `IndexPage.Index`. Their methods state the
whole new state. `AlertsPortal.GroupByEngineer` is the `reduce` that builds a dictionary in
place, so it is a loop over a `map`.

Abstractions:

- A `Date` is an integer number of milliseconds.
- `toDateString` is a function parameter `dayOf` from a timestamp to its calendar day.
- `Date.now()` is a `nat` parameter. Ids are `"alert-"` or `"job-"` followed by its decimal
  digits.
- The mock engineer, customer and job lists are parameters.

What the code does, and so what the model does:

- A job's status changes only through the status edit control (`JobDetail.ApplyEdit`). No
  operation records milestone times or reads the SLA thresholds against the clock.
- Two alerts raised in the same millisecond share an id (`Jobs.AlertIdsDistinct` is an
  if-and-only-if), so acknowledging one acknowledges both (`JobDetail.AcknowledgeSharedId`).
- Job creation in the code only replaces the id and prepends the job. The logged date, the
  default status and the validation belong to the wizard, which is not part of this model.
- The completion rate is a percentage: completed jobs times 100 over all jobs.
- The per-engineer and per-customer rows iterate the engineer and customer rosters, so a job
  whose engineer or customer is not on the roster appears in no row. The coverage lemmas
  therefore require every job's name to be on the roster.
- The portal's "active alerts" are its own portal alerts with status `active`. A job's
  unacknowledged alerts are a separate list, `Jobs.Unacknowledged`.

## Model

| member | source | states |
|---|---|---|
| Jobs.StatusNamesDistinct | src/types/job.ts:44 | a status is exactly one of green, amber, red: the names are distinct and none is the filter value 'all' |
| Jobs.PriorityNamesDistinct | src/types/job.ts:45 | a priority is exactly one of Low, Medium, High, Critical, and none is named 'all' |
| Jobs.StatusCountsAddUp | src/types/job.ts:44 | every job is counted under exactly one status: the green, amber and red counts add up to the number of jobs |
| Jobs.AlertIdsDistinct | src/pages/JobDetailPage.tsx:64 | alert ids made from the clock are equal exactly when they were made in the same millisecond |
| Jobs.NewAlert | src/pages/JobDetailPage.tsx:63-69 | a new alert is unacknowledged and has the requested type and the clock reading as timestamp |
| Jobs.AppendAlert | src/pages/JobDetailPage.tsx:71-74 | the new job's alert list is the old one (empty when absent) with the alert added at the end; every other field is unchanged |
| Jobs.AppendAlertTwice | src/pages/JobDetailPage.tsx:71-74 | appending never deduplicates: two appends add exactly two alerts after the unchanged earlier ones |
| Jobs.Unacknowledged | src/components/MasterDashboard.tsx:353 | the alerts waiting for acknowledgement are exactly those whose flag is false, every copy of each, in the order they were raised |
| Jobs.FindById | src/pages/JobDetailPage.tsx:40 | `find` by id: absent exactly when no job has the id, otherwise the first job with that id |
| Text.Lower | src/components/MasterDashboard.tsx:47-50 | `toLowerCase` keeps the length and folds each ASCII capital to lower case |
| Text.ParseNatToString | src/pages/JobDetailPage.tsx:64 | the decimal text of a clock reading reads back as that number |
| JobDetail.AcknowledgeById | src/pages/JobDetailPage.tsx:84-86 | acknowledging an id sets the flag on every alert with that id, leaves the other fields, the other alerts, the length and the order unchanged |
| JobDetail.AcknowledgeIdempotent | src/pages/JobDetailPage.tsx:84-86 | acknowledging twice is acknowledging once |
| JobDetail.AcknowledgeUnknownId | src/pages/JobDetailPage.tsx:84-86 | acknowledging an id no alert has changes nothing |
| JobDetail.AcknowledgeSharedId | src/pages/JobDetailPage.tsx:64 | alerts sharing an id are acknowledged together |
| JobDetail.AcknowledgeAppend | src/pages/JobDetailPage.tsx:84-86 | acknowledging distributes over appending alerts |
| JobDetail.RaiseThenAcknowledge | src/pages/JobDetailPage.tsx:60-90 | raising an alert with a fresh id and acknowledging it leaves the unacknowledged alerts as before |
| JobDetail.AcknowledgeIn | src/pages/JobDetailPage.tsx:79-90 | the draft's alert list becomes the acknowledged list, and an absent list becomes an empty one; nothing else changes |
| JobDetail.ApplyEdit | src/pages/JobDetailPage.tsx:166-339 | an edit control changes its own field of the draft and no other; the id, alerts and logged date never change, and the status changes only through the status control |
| JobDetail.EditCommutesWithAlerts | src/pages/JobDetailPage.tsx:60-90 | field edits commute with adding and acknowledging alerts |
| JobDetail.JobDetailPage.constructor | src/pages/JobDetailPage.tsx:35-37 | the page starts with no job, no draft and not editing |
| JobDetail.JobDetailPage.Load | src/pages/JobDetailPage.tsx:39-45 | the first job with the route's id becomes both the saved job and the draft; without one nothing changes, so the not-found view stays |
| JobDetail.JobDetailPage.StartEditing | src/pages/JobDetailPage.tsx:129 | "Edit Job" enters edit mode |
| JobDetail.JobDetailPage.HandleSave | src/pages/JobDetailPage.tsx:47-53 | with a draft: it is sent to `onJobUpdate`, becomes the saved job and edit mode ends; without one: nothing changes |
| JobDetail.JobDetailPage.HandleCancel | src/pages/JobDetailPage.tsx:55-58 | the draft goes back to the saved job and edit mode ends |
| JobDetail.JobDetailPage.AddAlert | src/pages/JobDetailPage.tsx:60-77 | only the draft changes, by one appended alert; without a draft nothing changes |
| JobDetail.JobDetailPage.AcknowledgeAlert | src/pages/JobDetailPage.tsx:79-90 | only the draft changes, by acknowledging the id; without a draft nothing changes |
| JobDetail.JobDetailPage.Edit | src/pages/JobDetailPage.tsx:166-339 | only the draft changes, by one field edit; without a draft nothing changes |
| JobDetail.JobDetailPage.CurrentJob | src/pages/JobDetailPage.tsx:91-106 | the page shows a job exactly when the not-found view is not shown, that job carries the saved job's id, and it is the draft in edit mode and the saved job otherwise |
| JobDetail.OpenJob | src/pages/JobDetailPage.tsx:39-106 | opening the page shows "Job Not Found" exactly when no job has the route's id, and otherwise shows the first job with it |
| JobDetail.RaiseThenCancel | src/pages/JobDetailPage.tsx:55-77 | after raising an alert and cancelling, the draft and the job shown are the found job again |
| JobDetail.RaiseThenSave | src/pages/JobDetailPage.tsx:47-77 | after raising an alert and saving, the job sent up is the found job with one more alert at the end |
| MasterDashboard.FilteredJobs | src/components/MasterDashboard.tsx:45-56 | a job is listed exactly when it is in the list and passes the search, status and priority tests, as many times as it occurs in the list |
| MasterDashboard.FilteredJobsInOrder | src/components/MasterDashboard.tsx:45-56 | the filtered list is an order-preserving subsequence of the jobs |
| MasterDashboard.NoFilterListsAll | src/components/MasterDashboard.tsx:46-53 | an empty search with both selectors at 'all' lists every job, in order |
| MasterDashboard.StatusFilterSelects | src/components/MasterDashboard.tsx:52 | selecting a status lists exactly the jobs with that status |
| MasterDashboard.SearchIgnoresCase | src/components/MasterDashboard.tsx:47-50 | terms that agree after lower-casing match the same jobs |
| MasterDashboard.SearchNarrows | src/components/MasterDashboard.tsx:47-50 | a job that matches a term matches every piece of it |
| MasterDashboard.ComputeStats | src/components/MasterDashboard.tsx:59-65 | total is the number of jobs; active, completed, critical and overdue are the numbers of amber-or-red, green, Critical and red jobs; active plus completed is the total, overdue is at most active, critical is at most the total |
| JobKeys.JobsOnDay | src/components/EndOfShiftReport.tsx:36-42 | the jobs of a day (`getJobsForDate`, and the dashboard summary's "today" filter at MasterDashboard.tsx lines 69-72) are exactly those logged on that day, every copy, in the order of the job list |
| MasterDashboard.GenerateEndOfShiftReport | src/components/MasterDashboard.tsx:68-88 | the total is the number of today's jobs and completed, pending, overdue and emergencies are the numbers of today's green, amber, red and Emergency-tagged jobs; the first three add up to the total; the follow-up list is today's amber and red jobs, every copy, in the job list's order, with total minus completed entries |
| MasterDashboard.FollowUpSelects | src/components/MasterDashboard.tsx:81-83 | a day's amber and red jobs are exactly the list's amber and red jobs of that day, every copy, in order |
| MasterDashboard.ReportCountsAddUp | src/components/MasterDashboard.tsx:77-84 | green, amber and red add up to the day's total; the amber-or-red count is amber plus red; the non-green count is the total minus green |
| MasterDashboard.SummaryCountsFollowUps | src/components/MasterDashboard.tsx:84 | the summary's "require follow-up" figure is the length of the follow-up list |
| MasterDashboard.FollowUpDisplay | src/components/MasterDashboard.tsx:202-206 | the first three follow-ups are shown (all of them when there are at most three), and "… and N more" appears exactly when there are more than three, with N the rest |
| MasterDashboard.DisplayedSlas | src/components/MasterDashboard.tsx:338-346 | each SLA shows its configured value when non-zero and 30, 90 or 180 minutes otherwise |
| ShiftReport.ForEngineer | src/components/EndOfShiftReport.tsx:45-47 | 'all' keeps every job; any other name keeps exactly that engineer's jobs, as many times as they occur |
| ShiftReport.ReportJobsSelect | src/components/EndOfShiftReport.tsx:36-47 | the report's jobs are those of the day and engineer, as an order-preserving subsequence |
| ShiftReport.ComputeStats | src/components/EndOfShiftReport.tsx:50-57 | the total is the number of jobs; completed, in-progress and issues are the numbers of green, amber and red jobs and add up to the total; the customer and site figures are the sizes of the sets of distinct customer and site names, at most the total and zero exactly when there are no jobs |
| ShiftReport.RateBounds | src/components/EndOfShiftReport.tsx:60 | the rate lies in [0, 100]; it is 0 exactly when nothing is completed and 100 exactly when everything is |
| ShiftReport.CompletionRate | src/components/EndOfShiftReport.tsx:60 | the rate is green jobs times 100 over all jobs (0 for no jobs); it lies in [0, 100], is 0 exactly when no job is green and 100 exactly when there are jobs and all are green |
| ShiftReport.GreenShare | src/components/EndOfShiftReport.tsx:60 | the green share is 0 exactly when no job is green and 100 exactly when there are jobs and all are green |
| ShiftReport.EngineerRowFor | src/components/EndOfShiftReport.tsx:63-72 | a row's total and its completed, in-progress and issues figures are the numbers of the engineer's jobs and of its green, amber and red ones; they add up; the rate is completed over total as a percentage, in [0, 100] |
| ShiftReport.EngineerRowIsStats | src/components/EndOfShiftReport.tsx:63-72 | an engineer's row holds the report's own figures and completion rate computed over that engineer's jobs |
| ShiftReport.CustomerRowFor | src/components/EndOfShiftReport.tsx:76-84 | a row's total and its completed, in-progress and issues figures are the numbers of the customer's jobs and of its green, amber and red ones, and they add up |
| ShiftReport.CustomerRowIsStats | src/components/EndOfShiftReport.tsx:76-84 | a customer's row holds the report's own figures computed over that customer's jobs |
| ShiftReport.EngineerStats | src/components/EndOfShiftReport.tsx:63-73 | the rows are exactly the roster engineers' non-empty rows, each as many times as the roster yields it |
| ShiftReport.CustomerStats | src/components/EndOfShiftReport.tsx:76-85 | the rows are exactly the customers' non-empty rows, each as many times as the customer list yields it |
| ShiftReport.EngineerStatsInRosterOrder | src/components/EndOfShiftReport.tsx:63-73 | the engineer rows keep roster order |
| ShiftReport.CustomerStatsInOrder | src/components/EndOfShiftReport.tsx:76-85 | the customer rows keep the customer list's order |
| ShiftReport.EngineerStatsCoverJobs | src/components/EndOfShiftReport.tsx:63-73 | with distinct roster names covering every job, the rows' totals add up to the number of jobs |
| ShiftReport.CustomerStatsCoverJobs | src/components/EndOfShiftReport.tsx:76-85 | with distinct customer names covering every job, the rows' totals add up to the number of jobs |
| ShiftReport.FormatDurationRoundTrip | src/components/EndOfShiftReport.tsx:101-105 | for m ≥ 0 the formatted text reads back as m |
| ShiftReport.FormatDurationShape | src/components/EndOfShiftReport.tsx:101-105 | the text is "H h M m" with H = m div 60 > 0 and M = m mod 60, or "M m" when H = 0 |
| AlertsPortal.CustomerJobs | src/components/CustomerAlertsPortal.tsx:50 | the customer's jobs are exactly those whose customer equals the name, as many times as they occur |
| AlertsPortal.CustomerJobsInOrder | src/components/CustomerAlertsPortal.tsx:50 | they keep the job list's order |
| AlertsPortal.GroupByEngineer | src/components/CustomerAlertsPortal.tsx:51-57 | the groups partition the jobs: one non-empty group per engineer holding exactly that engineer's jobs in order, engineers in first-appearance order, sizes adding up to the number of jobs |
| AlertsPortal.ToJobAlertType | src/components/CustomerAlertsPortal.tsx:78 | the job alert's type is named by the upper-cased portal type |
| AlertsPortal.PortalAlertIsDetailAlert | src/components/CustomerAlertsPortal.tsx:76-82 | the job alert the portal builds is the one the detail page's "add alert" builds for that type, unacknowledged |
| AlertsPortal.ResolveById | src/components/CustomerAlertsPortal.tsx:101-107 | resolving sets status resolved on exactly the alerts with the id and keeps everything else, the length and the order |
| AlertsPortal.ResolveIdempotent | src/components/CustomerAlertsPortal.tsx:101-107 | resolving twice is resolving once |
| AlertsPortal.ResolveUnknownId | src/components/CustomerAlertsPortal.tsx:101-107 | resolving an unknown id changes nothing |
| AlertsPortal.ActiveAlerts | src/components/CustomerAlertsPortal.tsx:109 | the active alerts are exactly those with status active, every copy of each, in the order they were raised |
| AlertsPortal.ResolveLeavesActive | src/components/CustomerAlertsPortal.tsx:101-109 | resolving an id removes exactly the alerts with that id from the active list and keeps the rest in order |
| AlertsPortal.History | src/components/CustomerAlertsPortal.tsx:317 | the history lists every alert in reverse order |
| AlertsPortal.HistoryNewestFirst | src/components/CustomerAlertsPortal.tsx:317 | a newly raised alert heads the history, followed by the earlier history |
| AlertsPortal.Portal.constructor | src/components/CustomerAlertsPortal.tsx:44-47 | no alerts, nothing selected, type 'accepted', dialog closed |
| AlertsPortal.Portal.OpenAddAlert | src/components/CustomerAlertsPortal.tsx:234-240 | "Add Alert" selects the job and opens the dialog |
| AlertsPortal.Portal.SetAlertType | src/components/CustomerAlertsPortal.tsx:262 | the selector sets the alert type |
| AlertsPortal.Portal.CloseDialog | src/components/CustomerAlertsPortal.tsx:280 | cancel closes the dialog |
| AlertsPortal.Portal.HandleAddAlert | src/components/CustomerAlertsPortal.tsx:59-99 | without a selection nothing changes; otherwise one active alert for the job and its engineer is appended, the dialog closes, the selection clears, and the job sent up has one more unacknowledged alert of the upper-cased type at the end |
| AlertsPortal.Portal.ResolveAlert | src/components/CustomerAlertsPortal.tsx:101-107 | the ledger becomes the resolved ledger |
| AlertsPortal.RaiseThenResolve | src/components/CustomerAlertsPortal.tsx:59-109 | raising and resolving leaves one resolved alert, nothing active, and the job sent up with exactly one more alert |
| IndexPage.RenderViewCases | src/pages/Index.tsx:50-106 | a route job id shows the detail page whatever the view; otherwise nothing renders exactly when the customer or alerts view has no selected customer |
| IndexPage.StepGuarded | src/pages/Index.tsx:59-106 | the customer and alerts views are entered only from screens that show a customer |
| IndexPage.ReplaceById | src/pages/Index.tsx:38-40 | every job with the saved id is replaced by the saved job, and the length and the other jobs are unchanged |
| IndexPage.ReplaceUnknownId | src/pages/Index.tsx:38-40 | saving an unknown id leaves the list unchanged |
| IndexPage.ReplaceIdempotent | src/pages/Index.tsx:38-40 | saving twice is saving once |
| IndexPage.ReplaceThenFind | src/pages/Index.tsx:38-40 | ids stay in place, and a lookup of the saved id finds the saved job exactly when the id was present |
| IndexPage.JobIdsDistinct | src/pages/Index.tsx:27 | generated job ids are equal exactly when made in the same millisecond |
| IndexPage.Index.constructor | src/pages/Index.tsx:17-22 | the given jobs and customers, master view, nothing selected, modal closed |
| IndexPage.Index.HandleJobCreate | src/pages/Index.tsx:24-31 | the new job with its generated id is at the front, followed by the old jobs in order; the view is master |
| IndexPage.Index.HandleJobSave | src/pages/Index.tsx:37-42 | the list becomes the replaced list and the selected job is cleared |
| IndexPage.Index.HandleCustomerSelect | src/pages/Index.tsx:44-47 | the customer is selected and the view is customer |
| IndexPage.Index.Navigate | src/pages/Index.tsx:59-106 | a button on the rendered screen switches to its view; a button the screen does not have changes nothing; a customer view is never current without a customer |
| IndexPage.NeverBlank | src/pages/Index.tsx:73-92 | while a customer view implies a selected customer, the page always renders something |
| IndexPage.CreateThenOpen | src/pages/Index.tsx:24-31 | after creating a job, looking up its generated id finds it, and the list is one longer |

## Left out

- Rendering: JSX, cards, badges, icons and dialogs beyond their open/selected state. Also the router hooks and the click-to-navigate to `/job/:id` (`handleJobClick`).
- Side effects with no state: the toast after an alert is raised, and `console.log` / `alert` in the report's generate button.
- Locale and time formatting: `toLocaleString`, `toLocaleTimeString` and `formatTime`. The exact `toDateString` and `new Date('YYYY-MM-DD')` behaviour, including its UTC-versus-local-day shift, is abstracted as the `dayOf` parameter and a target day.
- Floating point: rates are exact reals. Rounding and `toFixed` are not modelled.
- The clock: `Date.now()` and `new Date()` are parameters. The portal reads the clock separately for the portal alert and for the job alert, so `HandleAddAlert` takes two readings. Each alert takes its id and timestamp from one reading.
- Code that is not part of this model: `@/lib/jobUtils` (mock data and colour helpers), JobLogWizard, CustomerDashboard, JobEditModal, NavigationSidebar, App and StatusBadge. The mock lists are parameters. The edit modal's open flag is carried by `IndexPage.Index` but only its initial value is modelled.
- `EndOfShiftReport` reads the mock job list rather than the live one; the model takes the job list as a parameter either way.
- The wizard's `Omit<Job, 'id'>` is a full `Job` whose id `HandleJobCreate` overwrites.
- Optional job fields other than `alerts` and `tags`, and the `JobFormData` record. `customAlerts` is required, as `job.ts` declares it, so the `?.` absent case of the SLA display is not modelled.
- Numbers are unbounded integers: `NaN`, fractional minutes and fractional SLA values are not modelled.
- `AlertsPortal.GroupByEngineer`: the order of `Object.entries` is insertion order only for keys that are not integer-like. An engineer named like an array index would be listed first. Prototype-named keys such as `constructor` are also not modelled.
- `Text.Lower` and `Text.Upper` fold ASCII letters only, not full Unicode case mapping.
- Alert display details are not modelled: the portal's lookup of an alert's job number, and the "On Call" / "OOH" badge from the engineer roster.
- `JobDetail.JobDetailPage.Edit`: the contact editors are modelled, but the inputs' `|| ''` display fallbacks are not.
