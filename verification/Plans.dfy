/**
 What applying a plan (src/arch/aarch64/mmu/mod.rs, policy.rs) should achieve: a list of jobs, each a
 range mapped to itself, done one after another in a tree that only grows.
*/
module Plans {
  import opened Wrappers
  import opened Ram
  import opened Regions
  import opened Gaps
  import opened Levels
  import opened Descriptors
  import opened Trees
  import opened RangeSteps

  /** One line of a plan: a region with permissions of its own, or one to leave unmapped. */
  datatype Mapping = Mapping(name: string, region: Region, template: Option<Descriptor>)

  function RegionsOf(plan: seq<Mapping>): (r: seq<Region>)
    ensures |r| == |plan| && forall i | 0 <= i < |plan| :: r[i] == plan[i].region
  {
    seq(|plan|, i requires 0 <= i < |plan| => plan[i].region)
  }

  /** The source's test for two regions claiming the same memory. */
  predicate Clash(a: Region, b: Region) {
    a.base < b.End() && b.base < a.End()
  }

  predicate Inside(r: Region, va: nat) {
    r.base <= va < r.End()
  }

  /** It finds two that share an address, and an empty one that lies strictly inside another. */
  lemma ClashMeans(a: Region, b: Region)
    ensures Clash(a, b) <==>
              || (exists va: nat :: Inside(a, va) && Inside(b, va))
              || (a.size == 0 && b.base < a.base < b.End()) || (b.size == 0 && a.base < b.base < a.End())
  {
    if Clash(a, b) && a.size > 0 && b.size > 0 {
      var va := Max(a.base, b.base);
      assert Inside(a, va) && Inside(b, va);
    }
  }

  /** A range and what it is to be mapped as. */
  datatype Job = Job(region: Region, template: Descriptor)

  /** `va` translates to itself with the template's attributes. */
  predicate LandsAs(found: Option<Landing>, va: nat, template: Descriptor) {
    && found.Some? && found.value.address == va
    && found.value.attributes == Attributes(Stored(template).(kind := KindOf(found.value.level)))
  }

  ghost predicate Claimed(jobs: seq<Job>, va: nat) {
    exists j :: 0 <= j < |jobs| && Inside(jobs[j].region, va)
  }

  ghost predicate Reaches(jobs: seq<Job>, p: Place) {
    exists j :: 0 <= j < |jobs| && jobs[j].region.base < p.End() && p.start < jobs[j].region.End()
                && jobs[j].region.base < jobs[j].region.End()
  }

  /** The jobs are done, nothing else changed, and every new table serves one of them. */
  ghost predicate Applied(w0: seq<Word>, w: seq<Word>, place0: Places, place: Places, root: nat, jobs: seq<Job>) {
    && Tree(w, place, root)
    && Served(place0, place, jobs)
    && (forall j, va: nat | 0 <= j < |jobs| && va < SPACE && Inside(jobs[j].region, va) ::
          LandsAs(Walk(w, root, Level1, va), va, jobs[j].template))
    && Elsewhere(w0, w, root, jobs)
  }

  ghost predicate Served(place0: Places, place: Places, jobs: seq<Job>) {
    && (forall u | u in place0 :: u in place && place[u] == place0[u])
    && (forall u | u in place && u !in place0 :: Reaches(jobs, place[u]))
  }

  /** Addresses no job claims translate as before. */
  ghost predicate Elsewhere(w0: seq<Word>, w: seq<Word>, root: nat, jobs: seq<Job>) {
    forall va: nat | va < SPACE && !Claimed(jobs, va) :: Walk(w, root, Level1, va) == Walk(w0, root, Level1, va)
  }

  lemma NothingApplied(w: seq<Word>, place: Places, root: nat)
    requires Tree(w, place, root)
    ensures Applied(w, w, place, place, root, [])
  {
    hide Tree, Walk;
  }

  ghost predicate Apart(jobs: seq<Job>, r: Region) {
    forall j, va: nat | 0 <= j < |jobs| && Inside(jobs[j].region, va) :: !Inside(r, va)
  }

  /** One more job done. */
  lemma JobDone(w0: seq<Word>, w: seq<Word>, w': seq<Word>, place0: Places, place: Places, place': Places, root: nat,
                jobs: seq<Job>, job: Job)
    requires Applied(w0, w, place0, place, root, jobs) && Apart(jobs, job.region) && job.region.End() <= SPACE
    requires root in place && Grown(w, w', place, place', root, root, job.region.base, job.region.End())
    requires Translates(w, w', root, Place(Level1, 0), job.region.base, job.region.End(), job.region.End(),
                        job.template)
    ensures Applied(w0, w', place0, place', root, jobs + [job])
  {
    hide Tree, Walk, SlotsKept, NewTable, Attributes, Stored, Reaches, Translates;
    var all := jobs + [job];
    SpaceIsRoot();
    JobServes(place0, place, place', place[root], jobs, job);
    forall va: nat | va < SPACE
      ensures Inside(job.region, va) ==> LandsAs(Walk(w', root, Level1, va), va, job.template)
      ensures !Inside(job.region, va) ==> Walk(w', root, Level1, va) == Walk(w, root, Level1, va)
    {
      TranslatedAt(w, w', root, job, va);
    }
    forall j, va: nat | 0 <= j < |all| && va < SPACE && Inside(all[j].region, va)
      ensures LandsAs(Walk(w', root, Level1, va), va, all[j].template)
    {
      if j < |jobs| {
        assert Inside(jobs[j].region, va);
      }
    }
    forall va: nat | va < SPACE && !Claimed(all, va)
      ensures Walk(w', root, Level1, va) == Walk(w0, root, Level1, va)
    {
      UnclaimedBefore(jobs, job, va);
    }
  }

  lemma SpaceIsRoot()
    ensures Place(Level1, 0).End() == SPACE
  {
  }

  lemma UnclaimedBefore(jobs: seq<Job>, job: Job, va: nat)
    requires !Claimed(jobs + [job], va)
    ensures !Claimed(jobs, va) && !Inside(job.region, va)
  {
    var all := jobs + [job];
    assert all[|jobs|] == job;
    assert forall j | 0 <= j < |jobs| :: all[j] == jobs[j];
  }

  lemma TranslatedAt(w: seq<Word>, w': seq<Word>, root: nat, job: Job, va: nat)
    requires Translates(w, w', root, Place(Level1, 0), job.region.base, job.region.End(), job.region.End(),
                        job.template)
    requires va < SPACE
    ensures Inside(job.region, va) ==> LandsAs(Walk(w', root, Level1, va), va, job.template)
    ensures !Inside(job.region, va) ==> Walk(w', root, Level1, va) == Walk(w, root, Level1, va)
  {
    hide Walk, Attributes, Stored;
    assert Place(Level1, 0).Contains(va);
  }

  lemma JobServes(place0: Places, place: Places, place': Places, p: Place, jobs: seq<Job>, job: Job)
    requires Served(place0, place, jobs) && Extends(place, place', p, job.region.base, job.region.End())
    ensures Served(place0, place', jobs + [job])
  {
    hide Reaches;
    forall u | u in place' && u !in place0
      ensures Reaches(jobs + [job], place'[u])
    {
      if u !in place {
        NewReaches(place'[u], p, jobs, job);
      } else {
        StillReaches(place[u], jobs, job);
      }
    }
  }

  lemma NewReaches(q: Place, p: Place, jobs: seq<Job>, job: Job)
    requires NewTable(q, p, job.region.base, job.region.End())
    ensures Reaches(jobs + [job], q)
  {
    var all := jobs + [job];
    assert all[|jobs|] == job;
  }

  lemma StillReaches(q: Place, jobs: seq<Job>, job: Job)
    requires Reaches(jobs, q)
    ensures Reaches(jobs + [job], q)
  {
    var all := jobs + [job];
    var j :| 0 <= j < |jobs| && jobs[j].region.base < q.End() && q.start < jobs[j].region.End()
             && jobs[j].region.base < jobs[j].region.End();
    assert all[j] == jobs[j];
  }

  /** A job that failed: addresses no job claims, this one included, translate as before. */
  lemma JobFailed(w0: seq<Word>, w: seq<Word>, w': seq<Word>, place0: Places, place: Places, root: nat,
                  jobs: seq<Job>, job: Job)
    requires Applied(w0, w, place0, place, root, jobs)
    requires Untorn(w, w', root, Place(Level1, 0), job.region.base, job.region.End(), job.template)
    ensures Elsewhere(w0, w', root, jobs + [job])
  {
    hide Tree, Walk, LeafFor;
    forall va: nat | va < SPACE && !Claimed(jobs + [job], va)
      ensures Walk(w', root, Level1, va) == Walk(w0, root, Level1, va)
    {
      UnclaimedBefore(jobs, job, va);
      assert Place(Level1, 0).Contains(va);
    }
  }

  /** Doing other jobs does not make a clear range less clear. */
  lemma ClearStays(w0: seq<Word>, w: seq<Word>, place0: Places, place: Places, root: nat, jobs: seq<Job>, r: Region)
    requires Applied(w0, w, place0, place, root, jobs) && Apart(jobs, r) && r.End() <= SPACE
    requires root in place0 && root in place && place0[root] == place[root] == Place(Level1, 0)
    requires Clear(w0, place0, root, r.base, r.End())
    ensures Clear(w, place, root, r.base, r.End())
  {
    hide Tree, Walk;
    forall va: nat | r.base <= va < r.End()
      ensures Walk(w, root, Level1, va) == None
    {
      assert Inside(r, va);
      assert !Claimed(jobs, va);
    }
    forall u | u in place && place[u].level.Number() > 1
      ensures !(r.base <= place[u].start && place[u].End() <= r.End())
    {
      if u !in place0 {
        NotInside(jobs, place[u], r);
      }
    }
  }

  lemma NotInside(jobs: seq<Job>, p: Place, r: Region)
    requires Reaches(jobs, p) && Apart(jobs, r)
    ensures !(r.base <= p.start && p.End() <= r.End())
  {
    var j :| 0 <= j < |jobs| && jobs[j].region.base < p.End() && p.start < jobs[j].region.End()
             && jobs[j].region.base < jobs[j].region.End();
    var x := if p.start < jobs[j].region.base then jobs[j].region.base else p.start;
    assert Inside(jobs[j].region, x);
    assert !Inside(r, x);
  }

  // ----- From a plan to its jobs

  /** The jobs so far are the templated ones among the first `n` lines. */
  ghost predicate TemplateJobs(plan: seq<Mapping>, n: nat, jobs: seq<Job>)
    requires n <= |plan|
  {
    && (forall j | 0 <= j < |jobs| :: FromLine(plan, n, jobs[j]))
    && (forall i | 0 <= i < n && plan[i].template.Some? :: Job(plan[i].region, plan[i].template.value) in jobs)
  }

  ghost predicate FromLine(plan: seq<Mapping>, n: nat, job: Job)
    requires n <= |plan|
  {
    exists i :: 0 <= i < n && plan[i].template.Some? && job == Job(plan[i].region, plan[i].template.value)
  }

  ghost predicate NoClash(plan: seq<Mapping>) {
    forall i, k | 0 <= i < k < |plan| :: !Clash(plan[i].region, plan[k].region)
  }

  lemma OneMoreLine(plan: seq<Mapping>, n: nat, jobs: seq<Job>)
    requires n < |plan| && TemplateJobs(plan, n, jobs)
    ensures plan[n].template.None? ==> TemplateJobs(plan, n + 1, jobs)
    ensures plan[n].template.Some? ==> TemplateJobs(plan, n + 1, jobs + [Job(plan[n].region, plan[n].template.value)])
  {
    forall j | 0 <= j < |jobs|
      ensures FromLine(plan, n + 1, jobs[j])
    {
      assert FromLine(plan, n, jobs[j]);
    }
    if plan[n].template.Some? {
      var job := Job(plan[n].region, plan[n].template.value);
      assert FromLine(plan, n + 1, job);
      assert forall x | x in jobs :: x in jobs + [job];
      assert (jobs + [job])[|jobs|] == job;
    }
  }

  /** Lines that pass the overlap check claim different addresses. */
  lemma LineApart(plan: seq<Mapping>, n: nat, jobs: seq<Job>)
    requires n < |plan| && TemplateJobs(plan, n, jobs) && NoClash(plan)
    ensures Apart(jobs, plan[n].region)
  {
    forall j, va: nat | 0 <= j < |jobs| && Inside(jobs[j].region, va)
      ensures !Inside(plan[n].region, va)
    {
      assert FromLine(plan, n, jobs[j]);
      var i :| 0 <= i < n && plan[i].template.Some? && jobs[j] == Job(plan[i].region, plan[i].template.value);
      assert !Clash(plan[i].region, plan[n].region);
    }
  }

  /** The jobs are the templated lines, then the first `n` runs no line claims, filled. */
  ghost predicate AllJobs(plan: seq<Mapping>, arena: Region, runs: seq<PageRange>, n: nat, fill: Descriptor,
                          jobs: seq<Job>)
    requires n <= |runs|
  {
    && (forall j | 0 <= j < |jobs| :: FromLine(plan, |plan|, jobs[j]) || FromRun(runs, n, fill, jobs[j]))
    && (forall i | 0 <= i < |plan| && plan[i].template.Some? :: Job(plan[i].region, plan[i].template.value) in jobs)
    && (forall i | 0 <= i < n :: RunJob(runs[i], fill) in jobs)
  }

  function RunJob(run: PageRange, fill: Descriptor): Job {
    Job(RunRegion(run), fill)
  }

  function RunRegion(run: PageRange): Region {
    Region(run.start * PAGE_SIZE, if run.start <= run.end then (run.end - run.start) * PAGE_SIZE else 0)
  }

  ghost predicate FromRun(runs: seq<PageRange>, n: nat, fill: Descriptor, job: Job)
    requires n <= |runs|
  {
    exists i :: 0 <= i < n && job == RunJob(runs[i], fill)
  }

  lemma OneMoreRun(plan: seq<Mapping>, arena: Region, runs: seq<PageRange>, n: nat, fill: Descriptor, jobs: seq<Job>)
    requires n < |runs| && AllJobs(plan, arena, runs, n, fill, jobs)
    ensures AllJobs(plan, arena, runs, n + 1, fill, jobs + [RunJob(runs[n], fill)])
  {
    var all := jobs + [RunJob(runs[n], fill)];
    forall j | 0 <= j < |all|
      ensures FromLine(plan, |plan|, all[j]) || FromRun(runs, n + 1, fill, all[j])
    {
      if j < |jobs| && !FromLine(plan, |plan|, jobs[j]) {
        assert FromRun(runs, n, fill, jobs[j]);
      }
    }
    assert all[|jobs|] == RunJob(runs[n], fill);
    assert forall x | x in jobs :: x in all;
  }

  lemma RunInside(run: PageRange, va: nat)
    ensures Inside(RunRegion(run), va) <==> run.Contains(va / PAGE_SIZE)
  {
  }

  /** A page no region touches holds no address of one. */
  lemma OpenOutside(arena: Region, taken: seq<Region>, i: nat, va: nat)
    requires i < |taken| && Open(arena, taken, va / PAGE_SIZE)
    ensures !Inside(taken[i], va)
  {
    assert taken[i] in taken;
    assert !Touches(taken[i], va / PAGE_SIZE);
  }

  /** A run nobody claims is apart from every line and from the runs before it. */
  lemma RunApart(plan: seq<Mapping>, arena: Region, runs: seq<PageRange>, n: nat, fill: Descriptor, jobs: seq<Job>)
    requires n < |runs| && AllJobs(plan, arena, runs, n, fill, jobs) && ExactRuns(arena, RegionsOf(plan), runs)
    ensures Apart(jobs, RunRegion(runs[n]))
  {
    hide Open, RunRegion;
    assert MaximalRun(arena, RegionsOf(plan), runs[n]);
    RunIsOpen(arena, RegionsOf(plan), runs[n]);
    forall j, va: nat | 0 <= j < |jobs| && Inside(jobs[j].region, va)
      ensures !Inside(RunRegion(runs[n]), va)
    {
      RunInside(runs[n], va);
      if FromLine(plan, |plan|, jobs[j]) {
        var i :| 0 <= i < |plan| && plan[i].template.Some? && jobs[j] == Job(plan[i].region, plan[i].template.value);
        if runs[n].Contains(va / PAGE_SIZE) {
          OpenOutside(arena, RegionsOf(plan), i, va);
        }
      } else {
        assert FromRun(runs, n, fill, jobs[j]);
        var i :| 0 <= i < n && jobs[j] == RunJob(runs[i], fill);
        RunInside(runs[i], va);
        assert runs[i].end < runs[n].start;
      }
    }
  }

  /**
   The plan realised: every templated address translates to itself as its template says, every other
   whole page of the arena that no line touches as `fill` says, and nothing else has changed.
  */
  ghost predicate Realised(w0: seq<Word>, w: seq<Word>, root: nat, arena: Region, plan: seq<Mapping>,
                           fill: Descriptor) {
    && (forall i, va: nat | 0 <= i < |plan| && plan[i].template.Some? && va < SPACE && Inside(plan[i].region, va) ::
          LandsAs(Walk(w, root, Level1, va), va, plan[i].template.value))
    && (forall va: nat | va < SPACE && Open(arena, RegionsOf(plan), va / PAGE_SIZE) ::
          LandsAs(Walk(w, root, Level1, va), va, fill))
    && Otherwise(w0, w, root, arena, plan)
  }

  /** An address the plan says nothing about, or says to leave alone. */
  ghost predicate LeftAlone(arena: Region, plan: seq<Mapping>, va: nat) {
    && !Open(arena, RegionsOf(plan), va / PAGE_SIZE)
    && forall i | 0 <= i < |plan| && plan[i].template.Some? :: !Inside(plan[i].region, va)
  }

  ghost predicate Otherwise(w0: seq<Word>, w: seq<Word>, root: nat, arena: Region, plan: seq<Mapping>) {
    forall va: nat | va < SPACE && LeftAlone(arena, plan, va) :: Walk(w, root, Level1, va) == Walk(w0, root, Level1, va)
  }

  /** An address left alone is claimed by no job, whether or not all the jobs were done. */
  lemma LeftUnclaimed(plan: seq<Mapping>, arena: Region, runs: seq<PageRange>, n: nat, fill: Descriptor,
                      jobs: seq<Job>, va: nat)
    requires n <= |runs| && AllJobs(plan, arena, runs, n, fill, jobs) && ExactRuns(arena, RegionsOf(plan), runs)
    requires LeftAlone(arena, plan, va)
    ensures !Claimed(jobs, va)
  {
    hide Open, RunRegion;
    forall j | 0 <= j < |jobs|
      ensures !Inside(jobs[j].region, va)
    {
      if !FromLine(plan, |plan|, jobs[j]) {
        assert FromRun(runs, n, fill, jobs[j]);
        var i :| 0 <= i < n && jobs[j] == RunJob(runs[i], fill);
        RunInside(runs[i], va);
        InThatRun(runs, i, va / PAGE_SIZE);
      }
    }
  }

  lemma InThatRun(runs: seq<PageRange>, i: nat, p: nat)
    requires i < |runs|
    ensures runs[i].Contains(p) ==> InSomeRun(runs, p)
  {
  }

  lemma LinesLeftUnclaimed(plan: seq<Mapping>, arena: Region, n: nat, jobs: seq<Job>, va: nat)
    requires n <= |plan| && TemplateJobs(plan, n, jobs) && LeftAlone(arena, plan, va)
    ensures !Claimed(jobs, va)
  {
    hide Open;
    forall j | 0 <= j < |jobs|
      ensures !Inside(jobs[j].region, va)
    {
      assert FromLine(plan, n, jobs[j]);
    }
  }

  /** All the jobs done is the plan realised. */
  lemma AllDone(w0: seq<Word>, w: seq<Word>, place0: Places, place: Places, root: nat, plan: seq<Mapping>,
                arena: Region, runs: seq<PageRange>, fill: Descriptor, jobs: seq<Job>)
    requires Applied(w0, w, place0, place, root, jobs) && AllJobs(plan, arena, runs, |runs|, fill, jobs)
    requires ExactRuns(arena, RegionsOf(plan), runs)
    ensures Realised(w0, w, root, arena, plan, fill) && Otherwise(w0, w, root, arena, plan)
  {
    hide Tree, Walk, Open, RunRegion, LeftAlone, FromLine, FromRun, Stored, Attributes;
    forall i, va: nat | 0 <= i < |plan| && plan[i].template.Some? && va < SPACE && Inside(plan[i].region, va)
      ensures LandsAs(Walk(w, root, Level1, va), va, plan[i].template.value)
    {
      var job := Job(plan[i].region, plan[i].template.value);
      var j :| 0 <= j < |jobs| && jobs[j] == job;
      assert Inside(jobs[j].region, va);
    }
    forall va: nat | va < SPACE && Open(arena, RegionsOf(plan), va / PAGE_SIZE)
      ensures LandsAs(Walk(w, root, Level1, va), va, fill)
    {
      assert InSomeRun(runs, va / PAGE_SIZE);
      var i :| 0 <= i < |runs| && runs[i].Contains(va / PAGE_SIZE);
      RunInside(runs[i], va);
      var job := RunJob(runs[i], fill);
      var j :| 0 <= j < |jobs| && jobs[j] == job;
      assert Inside(jobs[j].region, va);
    }
    forall va: nat | va < SPACE && LeftAlone(arena, plan, va)
      ensures Walk(w, root, Level1, va) == Walk(w0, root, Level1, va)
    {
      LeftUnclaimed(plan, arena, runs, |runs|, fill, jobs, va);
    }
  }

  /** Every new table translates some address the plan is about. */
  ghost predicate ServesPlan(place: Places, place': Places, arena: Region, plan: seq<Mapping>) {
    && (forall u | u in place :: u in place' && place'[u] == place[u])
    && forall u | u in place' && u !in place :: IsAbout(arena, plan, place'[u])
  }

  ghost predicate IsAbout(arena: Region, plan: seq<Mapping>, p: Place) {
    exists x: nat :: p.Contains(x) && !LeftAlone(arena, plan, x)
  }

  lemma TablesServe(place0: Places, place: Places, plan: seq<Mapping>, arena: Region, runs: seq<PageRange>,
                    fill: Descriptor, jobs: seq<Job>)
    requires Served(place0, place, jobs) && AllJobs(plan, arena, runs, |runs|, fill, jobs)
    requires ExactRuns(arena, RegionsOf(plan), runs)
    ensures ServesPlan(place0, place, arena, plan)
  {
    hide AllJobs, ExactRuns, LeftAlone;
    forall u | u in place && u !in place0
      ensures IsAbout(arena, plan, place[u])
    {
      var p := place[u];
      var j :| 0 <= j < |jobs| && jobs[j].region.base < p.End() && p.start < jobs[j].region.End()
               && jobs[j].region.base < jobs[j].region.End();
      var x := if p.start < jobs[j].region.base then jobs[j].region.base else p.start;
      assert Inside(jobs[j].region, x);
      if LeftAlone(arena, plan, x) {
        LeftUnclaimed(plan, arena, runs, |runs|, fill, jobs, x);
        assert false;
      }
      assert p.Contains(x) && !LeftAlone(arena, plan, x);
    }
  }

  /** Nothing is mapped in the arena or the plan, and no table serves addresses of one of them alone. */
  ghost predicate PlanClear(w: seq<Word>, place: Places, root: nat, arena: Region, plan: seq<Mapping>)
    requires root in place
  {
    && (forall i | 0 <= i < |plan| && plan[i].template.Some? ::
         Clear(w, place, root, plan[i].region.base, plan[i].region.End()))
    && (forall va: nat | va < SPACE && Open(arena, RegionsOf(plan), va / PAGE_SIZE) ::
         Walk(w, root, place[root].level, va) == None)
    && NoTableInside(place, place[root].level, arena.base, arena.End())
  }

  /** A run no line touches is clear, then. */
  lemma RunClear(w: seq<Word>, place: Places, root: nat, arena: Region, plan: seq<Mapping>, runs: seq<PageRange>,
                 n: nat)
    requires root in place && PlanClear(w, place, root, arena, plan) && n < |runs|
    requires ExactRuns(arena, RegionsOf(plan), runs)
    requires arena.End() <= SPACE
    ensures var r := RunRegion(runs[n]); r.End() <= SPACE && Clear(w, place, root, r.base, r.End())
  {
    hide Walk;
    var run := runs[n];
    assert MaximalRun(arena, RegionsOf(plan), run);
    RunIsOpen(arena, RegionsOf(plan), run);
    assert run.Contains(run.start) && run.Contains(run.end - 1);
    RunWithin(arena, RegionsOf(plan), run);
    var r := RunRegion(run);
    hide Open, RunRegion;
    forall va: nat | r.base <= va < r.End()
      ensures Walk(w, root, place[root].level, va) == None
    {
      RunInside(run, va);
    }
  }

  lemma RunWithin(arena: Region, taken: seq<Region>, run: PageRange)
    requires run.start < run.end && Open(arena, taken, run.start) && Open(arena, taken, run.end - 1)
    ensures var r := RunRegion(run);
            arena.base <= r.base && r.End() <= arena.End() && r.base % PAGE_SIZE == 0 && r.End() % PAGE_SIZE == 0
  {
  }
}
