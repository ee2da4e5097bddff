/** Jobs seen through one of their name fields (engineer, customer, site): the per-name
    filters that the grouping and breakdown code performs, how their sizes add up, and the
    names in order of first appearance. */
module JobKeys {

  import opened Jobs
  import Seqs

  function EngineerOf(j: Job): string { j.engineer }
  function CustomerOf(j: Job): string { j.customer }
  function SiteOf(j: Job): string { j.site }

  /** `job => key(job) === name`. */
  function KeyIs(key: Job -> string, name: string): (p: Job -> bool)
    ensures forall j :: p(j) == (key(j) == name)
  {
    (j: Job) => key(j) == name
  }

  /** `job => names.includes(key(job))`. */
  function KeyIn(key: Job -> string, names: seq<string>): (p: Job -> bool)
    ensures forall j :: p(j) == (key(j) in names)
  {
    (j: Job) => key(j) in names
  }

  /** `job => new Date(job.dateLogged).toDateString() === day`, with `dayOf` standing for the
      calendar day of a timestamp. */
  function LoggedOn(dayOf: Timestamp -> int, day: int): (p: Job -> bool)
    ensures forall j :: p(j) == (dayOf(j.dateLogged) == day)
  {
    (j: Job) => dayOf(j.dateLogged) == day
  }

  /** The jobs logged on `day`: every copy of each, in the order of the job list. This is the
      report's `getJobsForDate` and the dashboard summary's "today" filter. */
  function JobsOnDay(jobs: seq<Job>, dayOf: Timestamp -> int, day: int): (r: seq<Job>)
    ensures forall j :: j in r <==> j in jobs && dayOf(j.dateLogged) == day
    ensures forall j :: multiset(r)[j] == if dayOf(j.dateLogged) == day then multiset(jobs)[j] else 0
    ensures Seqs.IsSubsequence(r, jobs)
  {
    Seqs.FilterMultiplicity(jobs, LoggedOn(dayOf, day));
    Seqs.FilterIsSubsequence(jobs, LoggedOn(dayOf, day));
    Seqs.Filter(jobs, LoggedOn(dayOf, day))
  }

  predicate Distinct(names: seq<string>)
  {
    forall i, k :: 0 <= i < k < |names| ==> names[i] != names[k]
  }

  /** How many jobs each name has, name by name. */
  function CountsByName(names: seq<string>, key: Job -> string, jobs: seq<Job>): seq<nat>
  {
    seq(|names|, i requires 0 <= i < |names| => |Seqs.Filter(jobs, KeyIs(key, names[i]))|)
  }

  /** Over distinct names, the per-name counts add up to the jobs whose key is one of them. */
  lemma {:induction false} CountsByNameSum(names: seq<string>, key: Job -> string, jobs: seq<Job>)
    requires Distinct(names)
    ensures Seqs.Sum(CountsByName(names, key, jobs)) == |Seqs.Filter(jobs, KeyIn(key, names))|
  {
    if names == [] {
      Seqs.FilterNone(jobs, KeyIn(key, names));
    } else {
      var rest := names[1..];
      assert CountsByName(names, key, jobs)
             == [|Seqs.Filter(jobs, KeyIs(key, names[0]))|] + CountsByName(rest, key, jobs);
      CountsByNameSum(rest, key, jobs);
      assert forall k :: 0 <= k < |rest| ==> rest[k] == names[k + 1];
      Seqs.FilterDisjoint(jobs, KeyIs(key, names[0]), KeyIn(key, rest), KeyIn(key, names));
    }
  }

  /** When every job's key is one of the distinct names, the per-name counts add up to the
      number of jobs. */
  lemma CountsByNameCover(names: seq<string>, key: Job -> string, jobs: seq<Job>)
    requires Distinct(names)
    requires forall j :: j in jobs ==> key(j) in names
    ensures Seqs.Sum(CountsByName(names, key, jobs)) == |jobs|
  {
    CountsByNameSum(names, key, jobs);
    Seqs.FilterAll(jobs, KeyIn(key, names));
  }


  /** `jobs.map(key)`. */
  function KeysOf(jobs: seq<Job>, key: Job -> string): (r: seq<string>)
    ensures |r| == |jobs|
    ensures forall i :: 0 <= i < |jobs| ==> r[i] == key(jobs[i])
  {
    seq(|jobs|, i requires 0 <= i < |jobs| => key(jobs[i]))
  }

  /** Every job's key is among the keys. */
  lemma KeysOfMember(jobs: seq<Job>, key: Job -> string, j: Job)
    requires j in jobs
    ensures key(j) in KeysOf(jobs, key)
  {
    var i :| 0 <= i < |jobs| && jobs[i] == j;
    assert KeysOf(jobs, key)[i] == key(j);
  }

  /** A name that is no job's key selects no job. */
  lemma KeyAbsent(jobs: seq<Job>, key: Job -> string, name: string)
    requires name !in KeysOf(jobs, key)
    ensures Seqs.Filter(jobs, KeyIs(key, name)) == []
  {
    forall j | j in jobs
      ensures !KeyIs(key, name)(j)
    {
      KeysOfMember(jobs, key, j);
    }
    Seqs.FilterNone(jobs, KeyIs(key, name));
  }

  /** The names of `s` with every repeat dropped, in order of first appearance. */
  function FirstOccurrences(s: seq<string>): (r: seq<string>)
    ensures Distinct(r)
    ensures forall x :: x in r <==> x in s
  {
    if s == [] then []
    else
      var r := FirstOccurrences(s[..|s| - 1]);
      assert s == s[..|s| - 1] + [s[|s| - 1]];
      if s[|s| - 1] in r then r else r + [s[|s| - 1]]
  }
}
