/** Concurrent verification jobs (internal/application/native_verification_async.go):
    the mutex-protected job table, its wait group and cancellation, as steps of any
    number of threads interleaved at the lock boundaries. */
module Jobs {
  datatype Request = Request(worker: string, operation: string, body: string)

  function JobKey(r: Request): string { r.worker + ":" + r.operation }

  /** What the durable authority knew when a thread looked an operation up. */
  datatype Lookup = Absent | Completed | Interrupted | Undecided

  datatype JobState = Admitting | Reserved | CancellationRequested

  /** `owner` is the thread that admitted the job; its context is the job's. */
  datatype Job = Job(request: Request, state: JobState, owner: nat)

  datatype Purpose = ToRun | ToInspect | ToCancel

  datatype Answer = Denied | Failure | Durable(lookup: Lookup) | Live(state: JobState) | ClosedCleanly | MustReconcile

  /** Where a thread is between two of its critical sections. The executor also stands for
      the request that started it, which was told the state of the job. */
  datatype Phase =
    | Asked(request: Request, lookup: Lookup, purpose: Purpose)
    | Preparing(request: Request)
    | Failing(request: Request, receipt: bool)
    | Ready(request: Request)
    | Executing(request: Request, told: JobState)
    | Finishing(request: Request)
    | Leaving(answer: Answer)
    | Waiting
    | Ended(answer: Answer)

  /** The table with everything its mutex protects, the wait group, the cancelled
      contexts and the threads. */
  datatype Sys = Sys(jobs: map<string, Job>, closed: bool, wg: int, cancelled: set<nat>, threads: map<nat, Phase>)

  const START := Sys(map[], false, 0, {}, map[])

  const CAPACITY := 2

  // ---------------------------------------------------------------- critical sections

  predicate Definitive(l: Lookup) { l == Completed || l == Interrupted }

  function Went(s: Sys, t: nat, p: Phase): Sys { s.(threads := s.threads[t := p]) }

  /** The first section of Request. */
  function Admit(s: Sys, t: nat, r: Request, lookup: Lookup): Sys {
    var key := JobKey(r);
    if key in s.jobs then Went(s, t, Ended(if s.jobs[key].request != r then Denied else Live(s.jobs[key].state)))
    else if lookup != Absent then Went(s, t, Ended(Durable(lookup)))
    else if s.closed || |s.jobs| >= CAPACITY then Went(s, t, Ended(Denied))
    else Went(s.(jobs := s.jobs[key := Job(r, Admitting, t)], wg := s.wg + 1), t, Preparing(r))
  }

  /** The section of inspect: Status, or Cancel when `cancel`. */
  function Inspect(s: Sys, t: nat, r: Request, lookup: Lookup, cancel: bool): Sys {
    var key := JobKey(r);
    if key !in s.jobs then Went(s, t, Ended(Durable(lookup)))
    else if s.jobs[key].request != r then Went(s, t, Ended(Denied))
    else if cancel then
      var job := s.jobs[key].(state := CancellationRequested);
      Went(s.(jobs := s.jobs[key := job], cancelled := s.cancelled + {job.owner}), t, Ended(Live(job.state)))
    else Went(s, t, Ended(Live(s.jobs[key].state)))
  }

  /** delete(m.jobs, key), by the request that failed or by the executor that finished. */
  function Drop(s: Sys, t: nat, r: Request, then_: Phase): Sys {
    Went(s.(jobs := s.jobs - {JobKey(r)}), t, then_)
  }

  /** The second section of Request, and the executor it starts. */
  function Reserve(s: Sys, t: nat, r: Request): Sys {
    var key := JobKey(r);
    if key in s.jobs && t !in s.cancelled
    then Went(s.(jobs := s.jobs[key := s.jobs[key].(state := Reserved)]), t, Executing(r, Reserved))
    else Went(s, t, Executing(r, if key in s.jobs then s.jobs[key].state else CancellationRequested))
  }

  function CancelAll(jobs: map<string, Job>): map<string, Job> {
    map k | k in jobs :: jobs[k].(state := CancellationRequested)
  }

  function Owners(jobs: map<string, Job>): set<nat> { set k | k in jobs :: jobs[k].owner }

  /** The section of Close. */
  function CloseAll(s: Sys, t: nat): Sys {
    Went(s.(closed := true, jobs := CancelAll(s.jobs), cancelled := s.cancelled + Owners(s.jobs)), t, Waiting)
  }

  // ---------------------------------------------------------------- steps

  datatype Prepared = Go | Receipt | Error

  datatype Action =
    | Asks(t: nat, request: Request, lookup: Lookup, purpose: Purpose)
    | Enters(t: nat)
    | Prepares(t: nat, outcome: Prepared)
    | Abandons(t: nat)
    | Reserves(t: nat)
    | Executes(t: nat)
    | Removes(t: nat)
    | Leaves(t: nat)
    | Closes(t: nat)
    | Waited(t: nat)
    | TimesOut(t: nat)

  predicate Enabled(s: Sys, a: Action) {
    match a
    case Asks(t, _, _, _) => t !in s.threads
    case Enters(t) => t in s.threads && s.threads[t].Asked?
    case Prepares(t, _) => t in s.threads && s.threads[t].Preparing?
    case Abandons(t) => t in s.threads && s.threads[t].Failing?
    case Reserves(t) => t in s.threads && s.threads[t].Ready?
    case Executes(t) => t in s.threads && s.threads[t].Executing?
    case Removes(t) => t in s.threads && s.threads[t].Finishing?
    case Leaves(t) => t in s.threads && s.threads[t].Leaving?
    case Closes(t) => t !in s.threads
    case Waited(t) => t in s.threads && s.threads[t].Waiting? && s.wg == 0
    case TimesOut(t) => t in s.threads && s.threads[t].Waiting?
  }

  function Next(s: Sys, a: Action): Sys
    requires Enabled(s, a)
  {
    match a
    case Asks(t, r, lookup, purpose) =>
      if Definitive(lookup) then Went(s, t, Ended(Durable(lookup))) else Went(s, t, Asked(r, lookup, purpose))
    case Enters(t) =>
      var p := s.threads[t];
      if p.purpose == ToRun then Admit(s, t, p.request, p.lookup)
          else Inspect(s, t, p.request, p.lookup, p.purpose == ToCancel)
    case Prepares(t, outcome) =>
      if outcome == Go then Went(s, t, Ready(s.threads[t].request))
      else Went(s.(cancelled := s.cancelled + {t}), t, Failing(s.threads[t].request, outcome == Receipt))
    case Abandons(t) =>
      Drop(s, t, s.threads[t].request, Leaving(if s.threads[t].receipt then Durable(Completed) else Failure))
    case Reserves(t) => Reserve(s, t, s.threads[t].request)
    case Executes(t) => Went(s, t, Finishing(s.threads[t].request))
    case Removes(t) => Drop(s, t, s.threads[t].request, Leaving(Durable(Undecided)))
    case Leaves(t) => Went(s.(wg := s.wg - 1, cancelled := s.cancelled + {t}), t, Ended(s.threads[t].answer))
    case Closes(t) => CloseAll(s, t)
    case Waited(t) => Went(s, t, Ended(ClosedCleanly))
    case TimesOut(t) => Went(s, t, Ended(MustReconcile))
  }

  // ---------------------------------------------------------------- the invariant

  /** The thread has admitted a job and not yet removed it. */
  predicate Holding(p: Phase) { p.Preparing? || p.Failing? || p.Ready? || p.Executing? || p.Finishing? }

  /** The thread has called wg.Add and not yet wg.Done. */
  predicate Counted(p: Phase) { Holding(p) || p.Leaving? }

  function CountedThreads(s: Sys): set<nat> { set t | t in s.threads && Counted(s.threads[t]) }

  /** Entries and holding threads belong to each other one to one. */
  ghost predicate Owned(s: Sys) {
    && (forall k | k in s.jobs :: var o := s.jobs[k].owner;
          o in s.threads && Holding(s.threads[o]) && s.threads[o].request == s.jobs[k].request
              && JobKey(s.jobs[k].request) == k)
    && (forall t | t in s.threads && Holding(s.threads[t]) ::
          var k := JobKey(s.threads[t].request); k in s.jobs && s.jobs[k].owner == t)
  }

  /** A job asked to cancel has a cancelled context, a reserved one an executor. */
  ghost predicate StatesFit(s: Sys) {
    && (forall k | k in s.jobs :: s.jobs[k].state == CancellationRequested ==> s.jobs[k].owner in s.cancelled)
    && (forall k | k in s.jobs && s.jobs[k].owner in s.threads :: s.jobs[k].state == Reserved ==>
          s.threads[s.jobs[k].owner].Executing? || s.threads[s.jobs[k].owner].Finishing?)
    && (s.closed ==> forall k | k in s.jobs :: s.jobs[k].state == CancellationRequested)
  }

  /** Whoever is in Close, or back from it, has closed the table. */
  ghost predicate CloseSeen(s: Sys) {
    forall t | t in s.threads && (s.threads[t] == Waiting || CloseAnswer(s.threads[t])) :: s.closed
  }

  /** Whoever is back from Close without an error left no thread counted. */
  ghost predicate CloseClean(s: Sys) {
    forall t | t in s.threads && s.threads[t] == Ended(ClosedCleanly) :: CountedThreads(s) == {}
  }

  ghost predicate LeavingFits(s: Sys) {
    forall t | t in s.threads && s.threads[t].Leaving? :: !CloseAnswer(Ended(s.threads[t].answer))
  }

  ghost predicate CloseFits(s: Sys) { CloseSeen(s) && CloseClean(s) && LeavingFits(s) }

  predicate CloseAnswer(p: Phase) { p == Ended(MustReconcile) || p == Ended(ClosedCleanly) }

  ghost predicate Inv(s: Sys) {
    && |s.jobs| <= CAPACITY
    && Owned(s) && StatesFit(s) && CloseFits(s)
    && s.wg == |CountedThreads(s)|
  }

  lemma CountedAfter(s: Sys, s': Sys, t: nat, p: Phase)
    requires s'.threads == s.threads[t := p]
    ensures CountedThreads(s') == if Counted(p) then CountedThreads(s) + {t} else CountedThreads(s) - {t}
    ensures var was := t in s.threads && Counted(s.threads[t]);
      |CountedThreads(s')|
          == |CountedThreads(s)| + (if Counted(p) && !was then 1 else if !Counted(p) && was then -1 else 0)
  {
    CountedSet(s, s', t, p);
    hide *;
    OneMoreOrLess(CountedThreads(s), t);
  }

  lemma CountedSet(s: Sys, s': Sys, t: nat, p: Phase)
    requires s'.threads == s.threads[t := p]
    ensures CountedThreads(s') == if Counted(p) then CountedThreads(s) + {t} else CountedThreads(s) - {t}
    ensures t in CountedThreads(s) <==> t in s.threads && Counted(s.threads[t])
  {
    hide Counted;
  }

  lemma OneMoreOrLess(a: set<nat>, t: nat)
    ensures |a + {t}| == |a| + (if t in a then 0 else 1) && |a - {t}| == |a| - (if t in a then 1 else 0)
  {
    if t in a { assert a + {t} == a; } else { assert a - {t} == a; }
  }

  lemma OwnedAfter(s: Sys, s': Sys, t: nat, p: Phase)
    requires Owned(s) && s'.threads == s.threads[t := p]
    requires s'.jobs.Keys == s.jobs.Keys && forall k | k in s.jobs ::
        s'.jobs[k].owner == s.jobs[k].owner && s'.jobs[k].request == s.jobs[k].request
    requires if t in s.threads && Holding(s.threads[t]) then Holding(p) && p.request == s.threads[t].request
        else !Holding(p)
    ensures Owned(s')
  {
    hide JobKey, Holding;
  }

  lemma CloseAfter(s: Sys, s': Sys, t: nat, p: Phase)
    requires CloseFits(s) && s'.threads == s.threads[t := p] && (s.closed ==> s'.closed)
    requires p == Waiting || CloseAnswer(p) ==> s'.closed
    requires p == Ended(ClosedCleanly) ==> CountedThreads(s) == {}
    requires Counted(p) ==> (t in s.threads && Counted(s.threads[t])) || !s.closed
    requires p.Leaving? ==> !CloseAnswer(Ended(p.answer))
    ensures CloseFits(s')
  {
    hide CloseSeen, CloseClean, LeavingFits, CountedThreads, Counted, CloseAnswer;
    SeenAfter(s, s', t, p);
    CleanAfter(s, s', t, p);
    LeavingAfter(s, s', t, p);
  }

  lemma SeenAfter(s: Sys, s': Sys, t: nat, p: Phase)
    requires CloseSeen(s) && s'.threads == s.threads[t := p] && (s.closed ==> s'.closed)
        && (p == Waiting || CloseAnswer(p) ==> s'.closed)
    ensures CloseSeen(s')
  {
    hide CloseAnswer;
  }

  lemma CleanAfter(s: Sys, s': Sys, t: nat, p: Phase)
    requires CloseSeen(s) && CloseClean(s) && s'.threads == s.threads[t := p]
    requires p == Ended(ClosedCleanly) ==> CountedThreads(s) == {}
    requires Counted(p) ==> (t in s.threads && Counted(s.threads[t])) || !s.closed
    ensures CloseClean(s')
  {
    CountedAfter(s, s', t, p);
    if t in s.threads && Counted(s.threads[t]) { InCounted(s, t); }
    hide CountedThreads;
    forall u | u in s'.threads && s'.threads[u] == Ended(ClosedCleanly) ensures CountedThreads(s') == {} {
      assert u != t ==> u in s.threads && s.threads[u] == Ended(ClosedCleanly);
    }
  }

  lemma LeavingAfter(s: Sys, s': Sys, t: nat, p: Phase)
    requires LeavingFits(s) && s'.threads == s.threads[t := p] && (p.Leaving? ==> !CloseAnswer(Ended(p.answer)))
    ensures LeavingFits(s')
  {
    hide CloseAnswer;
  }

  lemma InCounted(s: Sys, t: nat)
    requires t in s.threads && Counted(s.threads[t])
    ensures t in CountedThreads(s)
  {}

  lemma InvParts(s: Sys)
    requires Inv(s)
    ensures |s.jobs| <= CAPACITY && Owned(s) && StatesFit(s) && CloseFits(s) && s.wg == |CountedThreads(s)|
  {}

  /** One thread goes on to `p` and the table stays within the invariant. */
  lemma InvAfter(s: Sys, s': Sys, t: nat, p: Phase)
    requires Inv(s) && s'.threads == s.threads[t := p] && (s.closed ==> s'.closed)
    requires |s'.jobs| <= CAPACITY && Owned(s') && StatesFit(s')
    requires p == Waiting || CloseAnswer(p) ==> s'.closed
    requires p == Ended(ClosedCleanly) ==> s.wg == 0
    requires var was := t in s.threads && Counted(s.threads[t]);
      && (Counted(p) ==> was || !s.closed)
      && s'.wg == s.wg + (if Counted(p) && !was then 1 else if !Counted(p) && was then -1 else 0)
    requires p.Leaving? ==> !CloseAnswer(Ended(p.answer))
    ensures Inv(s')
  {
    InvParts(s);
    hide Owned, StatesFit, CloseFits, CountedThreads, Counted, CloseAnswer;
    CountedAfter(s, s', t, p);
    CloseAfter(s, s', t, p);
  }

  lemma PhaseFits(s: Sys, s': Sys, t: nat, p: Phase)
    requires StatesFit(s) && s'.threads == s.threads[t := p] && s'.jobs == s.jobs && s.cancelled <= s'.cancelled
        && s'.closed == s.closed
    requires t in s.threads && (s.threads[t].Executing? || s.threads[t].Finishing?) ==> p.Executing? || p.Finishing?
    requires t !in s.threads ==> Owned(s)
    ensures StatesFit(s')
  {
    hide JobKey, Holding;
  }

  /** A step that leaves the table as it is. */
  lemma QuietStep(s: Sys, s': Sys, t: nat, p: Phase)
    requires Inv(s) && s'.threads == s.threads[t := p] && s'.jobs == s.jobs && s.cancelled <= s'.cancelled
        && s'.closed == s.closed
    requires if t in s.threads && Holding(s.threads[t]) then Holding(p) && p.request == s.threads[t].request
        && (s.threads[t].Executing? ==> p.Finishing?) && !s.threads[t].Finishing?
             else !Counted(p)
    requires s'.wg == s.wg - if t in s.threads && s.threads[t].Leaving? then 1 else 0
    requires p == Waiting || CloseAnswer(p) ==> s'.closed
    requires p == Ended(ClosedCleanly) ==> s.wg == 0
    ensures Inv(s')
  {
    InvParts(s);
    hide Inv, Owned, StatesFit, CountedThreads, CloseFits;
    OwnedAfter(s, s', t, p);
    PhaseFits(s, s', t, p);
    InvAfter(s, s', t, p);
  }

  lemma AskStep(s: Sys, a: Action)
    requires Inv(s) && Enabled(s, a) && a.Asks?
    ensures Inv(Next(s, a))
  {
    hide Inv;
    QuietStep(s, Next(s, a), a.t, Next(s, a).threads[a.t]);
  }

  lemma PrepareStep(s: Sys, a: Action)
    requires Inv(s) && Enabled(s, a) && (a.Prepares? || a.Executes?)
    ensures Inv(Next(s, a))
  {
    hide Inv;
    QuietStep(s, Next(s, a), a.t, Next(s, a).threads[a.t]);
  }

  lemma LeaveStep(s: Sys, a: Action)
    requires Inv(s) && Enabled(s, a) && (a.Leaves? || a.Waited? || a.TimesOut?)
    ensures Inv(Next(s, a))
  {
    InvParts(s);
    WaitingClosed(s, a.t);
    hide Inv, Owned, StatesFit, CountedThreads, CloseFits;
    QuietStep(s, Next(s, a), a.t, Next(s, a).threads[a.t]);
  }

  lemma WaitingClosed(s: Sys, t: nat)
    requires CloseFits(s) && t in s.threads
    ensures s.threads[t].Waiting? ==> s.closed
    ensures s.threads[t].Leaving? ==> !CloseAnswer(Ended(s.threads[t].answer))
  {
    hide CountedThreads;
  }

  lemma EnterStep(s: Sys, a: Action)
    requires Inv(s) && Enabled(s, a) && a.Enters?
    ensures Inv(Next(s, a))
  {
    var t, p := a.t, s.threads[a.t];
    hide Inv, JobKey;
    if p.purpose == ToRun { AdmitStep(s, t, p.request, p.lookup); }
        else { InspectStep(s, t, p.request, p.lookup, p.purpose == ToCancel); }
    hide Admit, Inspect;
  }

  lemma AdmitStep(s: Sys, t: nat, r: Request, lookup: Lookup)
    requires Inv(s) && t in s.threads && s.threads[t].Asked?
    ensures Inv(Admit(s, t, r, lookup))
  {
    var next := Admit(s, t, r, lookup);
    InvParts(s);
    AdmitCases(s, t, r, lookup);
    hide Inv, JobKey, Owned, StatesFit, CountedThreads, CloseFits, Admit;
    if next.threads[t].Preparing? {
      AdmitOwns(s, next, t, r);
      AdmitFits(s, next, t, r);
      InvAfter(s, next, t, Preparing(r));
    } else {
      QuietStep(s, next, t, next.threads[t]);
    }
  }

  lemma AdmitCases(s: Sys, t: nat, r: Request, lookup: Lookup)
    requires t in s.threads && |s.jobs| <= CAPACITY
    ensures var n := Admit(s, t, r, lookup);
      && t in n.threads && n.threads == s.threads[t := n.threads[t]] && n.closed == s.closed
          && n.cancelled == s.cancelled && |n.jobs| <= CAPACITY
      && (if n.threads[t].Preparing?
          then JobKey(r) !in s.jobs && !s.closed && n.threads[t] == Preparing(r)
            && n == s.(jobs := s.jobs[JobKey(r) := Job(r, Admitting, t)], wg := s.wg + 1, threads :=
                s.threads[t := Preparing(r)])
          else n.threads[t].Ended? && !CloseAnswer(n.threads[t]) && n.jobs == s.jobs && n.wg == s.wg)
  {
    hide JobKey;
    var key := JobKey(r);
    assert key !in s.jobs ==> s.jobs[key := Job(r, Admitting, t)].Keys == s.jobs.Keys + {key};
  }

  lemma AdmitOwns(s: Sys, s': Sys, t: nat, r: Request)
    requires Owned(s) && t in s.threads && !Holding(s.threads[t]) && JobKey(r) !in s.jobs
    requires s'.jobs == s.jobs[JobKey(r) := Job(r, Admitting, t)] && s'.threads == s.threads[t := Preparing(r)]
    ensures Owned(s')
  {
    hide JobKey;
  }

  lemma AdmitFits(s: Sys, s': Sys, t: nat, r: Request)
    requires StatesFit(s) && t in s.threads && s.threads[t].Asked? && !s.closed
    requires s' == s.(jobs := s.jobs[JobKey(r) := Job(r, Admitting, t)], wg := s.wg + 1, threads :=
        s.threads[t := Preparing(r)])
    ensures StatesFit(s')
  {
    hide JobKey;
  }

  lemma InspectStep(s: Sys, t: nat, r: Request, lookup: Lookup, cancel: bool)
    requires Inv(s) && t in s.threads && s.threads[t].Asked?
    ensures Inv(Inspect(s, t, r, lookup, cancel))
  {
    var next := Inspect(s, t, r, lookup, cancel);
    var key := JobKey(r);
    InvParts(s);
    InspectCases(s, t, r, lookup, cancel);
    hide Inv, JobKey, Owned, StatesFit, CountedThreads, CloseFits, Inspect;
    if key in s.jobs && s.jobs[key].request == r && cancel {
      assert next.jobs.Keys == s.jobs.Keys;
      OwnedAfter(s, next, t, next.threads[t]);
      CancelFits(s, next, t, key);
      InvAfter(s, next, t, next.threads[t]);
    } else {
      QuietStep(s, next, t, next.threads[t]);
    }
  }

  lemma InspectCases(s: Sys, t: nat, r: Request, lookup: Lookup, cancel: bool)
    requires t in s.threads
    ensures var n, key := Inspect(s, t, r, lookup, cancel), JobKey(r);
      && t in n.threads && n.threads == s.threads[t := n.threads[t]] && n.threads[t].Ended?
          && !CloseAnswer(n.threads[t])
      && n.wg == s.wg && n.closed == s.closed && s.cancelled <= n.cancelled
      && (if key in s.jobs && s.jobs[key].request == r && cancel
          then n.jobs == s.jobs[key := s.jobs[key].(state := CancellationRequested)]
              && n.cancelled == s.cancelled + {s.jobs[key].owner} && |n.jobs| == |s.jobs|
          else n.jobs == s.jobs)
  {
    hide JobKey;
    var n, key := Inspect(s, t, r, lookup, cancel), JobKey(r);
    assert key in s.jobs ==> n.jobs.Keys == s.jobs.Keys;
  }

  lemma CancelFits(s: Sys, s': Sys, t: nat, key: string)
    requires StatesFit(s) && t in s.threads && s.threads[t].Asked? && key in s.jobs
    requires var job := s.jobs[key].(state := CancellationRequested);
      s'.jobs == s.jobs[key := job] && s'.cancelled == s.cancelled + {job.owner} && s'.closed == s.closed
          && t in s'.threads && s'.threads == s.threads[t := s'.threads[t]]
    ensures StatesFit(s')
  {}

  lemma ReserveStep(s: Sys, a: Action)
    requires Inv(s) && Enabled(s, a) && a.Reserves?
    ensures Inv(Next(s, a))
  {
    var t := a.t;
    var r := s.threads[t].request;
    var next := Reserve(s, t, r);
    InvParts(s);
    ReserveRest(s, t);
    ReserveFits(s, t);
    hide Inv, JobKey, Owned, StatesFit, CountedThreads, CloseFits, Reserve;
    OwnedAfter(s, next, t, next.threads[t]);
    InvAfter(s, next, t, next.threads[t]);
  }

  lemma ReserveRest(s: Sys, t: nat)
    requires t in s.threads && s.threads[t].Ready?
    ensures var n := Reserve(s, t, s.threads[t].request);
      && n.jobs.Keys == s.jobs.Keys && |n.jobs| == |s.jobs| && n.wg == s.wg && n.closed == s.closed
      && t in n.threads && n.threads[t].Executing? && n.threads[t].request == s.threads[t].request
      && n.threads == s.threads[t := n.threads[t]]
      && forall k | k in s.jobs :: n.jobs[k].owner == s.jobs[k].owner && n.jobs[k].request == s.jobs[k].request
  {
    hide JobKey;
    assert Reserve(s, t, s.threads[t].request).jobs.Keys == s.jobs.Keys;
  }

  lemma ReserveFits(s: Sys, t: nat)
    requires StatesFit(s) && Owned(s) && t in s.threads && s.threads[t].Ready?
    ensures StatesFit(Reserve(s, t, s.threads[t].request))
  {
    hide JobKey;
  }

  lemma DropStep(s: Sys, a: Action)
    requires Inv(s) && Enabled(s, a) && (a.Abandons? || a.Removes?)
    ensures Inv(Next(s, a))
  {
    hide *;
    var next := Next(s, a);
    InvParts(s);
    DropIs(s, a);
    DropOwns(s, next, a.t);
    DropFits(s, next, a.t);
    FewerJobs(s.jobs, JobKey(s.threads[a.t].request));
    InvAfter(s, next, a.t, next.threads[a.t]);
  }

  lemma DropIs(s: Sys, a: Action)
    requires Enabled(s, a) && (a.Abandons? || a.Removes?)
    ensures a.t in s.threads && Holding(s.threads[a.t]) && Counted(s.threads[a.t])
        && (s.threads[a.t].Failing? || s.threads[a.t].Finishing?)
    ensures var n := Next(s, a);
      && a.t in n.threads && n.threads == s.threads[a.t := n.threads[a.t]] && !Holding(n.threads[a.t])
          && Counted(n.threads[a.t])
      && n.threads[a.t].Leaving? && !CloseAnswer(Ended(n.threads[a.t].answer)) && n.threads[a.t] != Waiting
          && !CloseAnswer(n.threads[a.t])
      && n.jobs == s.jobs - {JobKey(s.threads[a.t].request)} && n.cancelled == s.cancelled && n.closed == s.closed
          && n.wg == s.wg
  {
    hide JobKey;
  }

  lemma FewerJobs(jobs: map<string, Job>, k: string)
    ensures |jobs - {k}| <= |jobs|
  {
    assert (jobs - {k}).Keys == jobs.Keys - {k};
  }

  lemma DropOwns(s: Sys, s': Sys, t: nat)
    requires Owned(s) && t in s.threads && Holding(s.threads[t]) && t in s'.threads && !Holding(s'.threads[t])
    requires s'.threads == s.threads[t := s'.threads[t]] && s'.jobs == s.jobs - {JobKey(s.threads[t].request)}
    ensures Owned(s')
  {
    hide JobKey;
  }

  lemma DropFits(s: Sys, s': Sys, t: nat)
    requires StatesFit(s) && Owned(s) && t in s.threads && Holding(s.threads[t]) && t in s'.threads
    requires s'.threads == s.threads[t := s'.threads[t]] && s'.jobs == s.jobs - {JobKey(s.threads[t].request)}
    requires s'.cancelled == s.cancelled && s'.closed == s.closed
    ensures StatesFit(s')
  {
    hide JobKey;
  }

  lemma CloseStep(s: Sys, a: Action)
    requires Inv(s) && Enabled(s, a) && a.Closes?
    ensures Inv(Next(s, a))
  {
    var next := Next(s, a);
    assert next.jobs.Keys == s.jobs.Keys;
    InvParts(s);
    CloseAllFits(s, a.t);
    hide Inv, JobKey, Owned, StatesFit, CountedThreads, CloseFits;
    OwnedAfter(s, next, a.t, Waiting);
    InvAfter(s, next, a.t, Waiting);
  }

  lemma CloseAllFits(s: Sys, t: nat)
    requires Owned(s) && t !in s.threads
    ensures StatesFit(CloseAll(s, t))
  {
    hide JobKey, Holding;
  }

  /** Every step of every thread keeps the invariant. */
  lemma StepKeeps(s: Sys, a: Action)
    requires Inv(s) && Enabled(s, a)
    ensures Inv(Next(s, a))
  {
    hide *;
    StepCases(s, a);
    if a.Asks? { AskStep(s, a); }
    if a.Enters? { EnterStep(s, a); }
    if a.Prepares? || a.Executes? { PrepareStep(s, a); }
    if a.Reserves? { ReserveStep(s, a); }
    if a.Abandons? || a.Removes? { DropStep(s, a); }
    if a.Leaves? || a.Waited? || a.TimesOut? { LeaveStep(s, a); }
    if a.Closes? { CloseStep(s, a); }
  }

  lemma StepCases(s: Sys, a: Action)
    ensures a.Asks? || a.Enters? || a.Prepares? || a.Executes? || a.Reserves? || a.Abandons? || a.Removes? || a.Leaves?
        || a.Waited? || a.TimesOut? || a.Closes?
  {}

  // ---------------------------------------------------------------- runs

  ghost predicate Run(states: seq<Sys>, actions: seq<Action>) {
    && |states| == |actions| + 1 && states[0] == START
    && forall i | 0 <= i < |actions| :: Enabled(states[i], actions[i]) && states[i + 1] == Next(states[i], actions[i])
  }

  lemma RunStep(states: seq<Sys>, actions: seq<Action>, n: nat)
    requires Run(states, actions) && n < |actions|
    ensures |states| == |actions| + 1 && Enabled(states[n], actions[n]) && states[n + 1] == Next(states[n], actions[n])
  {
    hide Enabled, Next;
  }

  lemma RunLength(states: seq<Sys>, actions: seq<Action>)
    requires Run(states, actions)
    ensures |states| == |actions| + 1
  {
    hide Enabled, Next;
  }

  lemma {:induction false} RunKeeps(states: seq<Sys>, actions: seq<Action>, n: nat)
    requires Run(states, actions) && n <= |actions|
    ensures Inv(states[n])
  {
    if n == 0 {
      assert CountedThreads(START) == {};
    } else {
      hide Inv, Next, Enabled;
      RunKeeps(states, actions, n - 1);
      RunStep(states, actions, n - 1);
      StepKeeps(states[n - 1], actions[n - 1]);
    }
  }

  /** The threads between Add and Done that hold an entry are as many as the entries. */
  lemma {:induction false} EntriesCounted(jobs: map<string, Job>, threads: set<nat>)
    requires forall k | k in jobs :: jobs[k].owner in threads
    requires forall k, l | k in jobs && l in jobs && k != l :: jobs[k].owner != jobs[l].owner
    ensures |jobs| <= |threads|
    decreases |jobs|
  {
    if jobs != map[] {
      var k :| k in jobs;
      var rest := jobs - {k};
      assert rest.Keys == jobs.Keys - {k};
      assert |rest| == |jobs| - 1;
      EntriesCounted(rest, threads - {jobs[k].owner});
    }
  }

  /** In every interleaving: at most two jobs, each with its own thread at work, and the
      wait group at least as high as the number of entries. */
  lemma JobsBounded(states: seq<Sys>, actions: seq<Action>, n: nat)
    requires Run(states, actions) && n <= |actions|
    ensures var s := states[n];
      && |s.jobs| <= CAPACITY && |s.jobs| <= s.wg
      && (forall t | t in s.threads && Holding(s.threads[t]) ::
            var k := JobKey(s.threads[t].request);
                k in s.jobs && s.jobs[k].owner == t && s.jobs[k].request == s.threads[t].request)
  {
    RunKeeps(states, actions, n);
    var s := states[n];
    hide JobKey, Run, StatesFit, CloseFits;
    assert forall k | k in s.jobs :: s.jobs[k].owner in CountedThreads(s);
    EntriesCounted(s.jobs, CountedThreads(s));
  }

  /** The same job as before, and not a cancelled one taken back. */
  predicate Kept(before: Job, after: Job) {
    after.owner == before.owner && after.request == before.request
        && (before.state == CancellationRequested ==> after.state == CancellationRequested)
  }

  lemma AdmitEntry(s: Sys, t: nat, r: Request, lookup: Lookup, k: string)
    requires k in s.jobs
    ensures var n := Admit(s, t, r, lookup); k in n.jobs && Kept(s.jobs[k], n.jobs[k])
  {
    hide JobKey;
  }

  lemma InspectEntry(s: Sys, t: nat, r: Request, lookup: Lookup, cancel: bool, k: string)
    requires k in s.jobs
    ensures var n := Inspect(s, t, r, lookup, cancel); k in n.jobs && Kept(s.jobs[k], n.jobs[k])
  {
    hide JobKey;
  }

  lemma ReserveEntry(s: Sys, t: nat, k: string)
    requires Owned(s) && StatesFit(s) && t in s.threads && s.threads[t].Ready? && k in s.jobs
    ensures var n := Reserve(s, t, s.threads[t].request); k in n.jobs && Kept(s.jobs[k], n.jobs[k])
  {
    hide JobKey;
  }

  lemma CloseEntry(s: Sys, t: nat, k: string)
    requires k in s.jobs
    ensures var n := CloseAll(s, t); k in n.jobs && Kept(s.jobs[k], n.jobs[k])
  {}

  lemma DropEntry(s: Sys, a: Action, k: string)
    requires Owned(s) && Enabled(s, a) && (a.Abandons? || a.Removes?) && k in s.jobs
    ensures var n := Next(s, a); if k in n.jobs then n.jobs[k] == s.jobs[k] else a.t == s.jobs[k].owner
  {
    hide JobKey;
  }

  lemma QuietEntry(s: Sys, a: Action)
    requires Enabled(s, a) && (a.Asks? || a.Prepares? || a.Executes? || a.Leaves? || a.Waited? || a.TimesOut?)
    ensures Next(s, a).jobs == s.jobs
  {}

  lemma EnterIs(s: Sys, a: Action)
    requires Enabled(s, a) && a.Enters?
    ensures a.t in s.threads && s.threads[a.t].Asked?
    ensures var p := s.threads[a.t];
        Next(s, a) == if p.purpose == ToRun then Admit(s, a.t, p.request, p.lookup)
        else Inspect(s, a.t, p.request, p.lookup, p.purpose == ToCancel)
  {
    hide Admit, Inspect;
  }

  lemma ReserveIs(s: Sys, a: Action)
    requires Enabled(s, a) && a.Reserves?
    ensures a.t in s.threads && s.threads[a.t].Ready? && Next(s, a) == Reserve(s, a.t, s.threads[a.t].request)
  {
    hide Reserve;
  }

  lemma CloseIs(s: Sys, a: Action)
    requires Enabled(s, a) && a.Closes?
    ensures Next(s, a) == CloseAll(s, a.t)
  {
    hide CloseAll;
  }

  /** Whatever the step, an entry that stays is kept, and one that goes goes by its owner. */
  lemma EntryMoves(s: Sys, a: Action, k: string)
    requires Inv(s) && Enabled(s, a) && k in s.jobs
    ensures var n := Next(s, a);
      if k in n.jobs then Kept(s.jobs[k], n.jobs[k]) else (a.Abandons? || a.Removes?) && a.t == s.jobs[k].owner
  {
    hide *;
    InvParts(s);
    StepCases(s, a);
    KeptSame(s.jobs[k]);
    if a.Enters? {
      EnterIs(s, a);
      var p := s.threads[a.t];
      if p.purpose == ToRun { AdmitEntry(s, a.t, p.request, p.lookup, k); }
          else { InspectEntry(s, a.t, p.request, p.lookup, p.purpose == ToCancel, k); }
    } else if a.Reserves? {
      ReserveIs(s, a);
      ReserveEntry(s, a.t, k);
    } else if a.Closes? {
      CloseIs(s, a);
      CloseEntry(s, a.t, k);
    } else if a.Abandons? || a.Removes? {
      DropEntry(s, a, k);
    } else {
      QuietEntry(s, a);
    }
  }

  lemma KeptSame(job: Job)
    ensures Kept(job, job)
  {}

  /** An entry disappears, or changes hands, only by a step of the thread that owns it. */
  lemma OnlyOwnerRemoves(s: Sys, a: Action, k: string)
    requires Inv(s) && Enabled(s, a) && k in s.jobs
    ensures var next := Next(s, a);
      && (k !in next.jobs ==> (a.Abandons? || a.Removes?) && a.t == s.jobs[k].owner)
      && (k in next.jobs ==> next.jobs[k].owner == s.jobs[k].owner && next.jobs[k].request == s.jobs[k].request)
  {
    hide Inv, Enabled, Next;
    EntryMoves(s, a, k);
  }

  /** A job asked to cancel stays so until its entry is gone. */
  lemma CancelStays(s: Sys, a: Action, k: string)
    requires Inv(s) && Enabled(s, a) && k in s.jobs && s.jobs[k].state == CancellationRequested && k in Next(s, a).jobs
    ensures Next(s, a).jobs[k].state == CancellationRequested
  {
    hide Inv, Enabled, Next;
    EntryMoves(s, a, k);
  }

  /** The entry under `k` is, in every state from `i` to `j`, the job it is in state `i`. */
  ghost predicate SameJob(states: seq<Sys>, i: nat, j: nat, k: string)
    requires i <= j < |states|
  {
    k in states[i].jobs && forall n | i <= n <= j ::
        k in states[n].jobs && states[n].jobs[k].owner == states[i].jobs[k].owner
  }

  lemma SameJobParts(states: seq<Sys>, i: nat, j: nat, k: string)
    requires i < j < |states| && SameJob(states, i, j, k)
    ensures SameJob(states, i, j - 1, k) && k in states[j - 1].jobs && k in states[j].jobs
  {}

  /** Over a whole run: a cancelled job is never reserved again. */
  lemma {:induction false} CancelledForGood(states: seq<Sys>, actions: seq<Action>, i: nat, j: nat, k: string)
    requires Run(states, actions) && i <= j <= |actions| && SameJob(states, i, j, k)
    requires k in states[i].jobs && states[i].jobs[k].state == CancellationRequested
    ensures k in states[j].jobs && states[j].jobs[k].state == CancellationRequested
    decreases j - i
  {
    hide *;
    RunLength(states, actions);
    if i < j {
      SameJobParts(states, i, j, k);
      CancelledForGood(states, actions, i, j - 1, k);
      RunKeeps(states, actions, j - 1);
      RunStep(states, actions, j - 1);
      CancelStays(states[j - 1], actions[j - 1], k);
    }
  }

  lemma ClosedStep(s: Sys, a: Action)
    requires Inv(s) && Enabled(s, a) && s.closed
    ensures var next := Next(s, a); next.closed && next.jobs.Keys <= s.jobs.Keys
  {
    hide JobKey, StatesFit, CloseFits, CountedThreads, Owned;
  }

  /** Once closed, no job is ever added. */
  lemma {:induction false} ClosedForGood(states: seq<Sys>, actions: seq<Action>, i: nat, j: nat)
    requires Run(states, actions) && i <= j <= |actions| && states[i].closed
    ensures states[j].closed && states[j].jobs.Keys <= states[i].jobs.Keys
    decreases j - i
  {
    hide *;
    RunLength(states, actions);
    if i < j {
      ClosedForGood(states, actions, i, j - 1);
      RunKeeps(states, actions, j - 1);
      RunStep(states, actions, j - 1);
      ClosedStep(states[j - 1], actions[j - 1]);
    }
  }

  /** When Close returns without an error there is no entry left, no thread holds one,
      no executor runs, and it stays that way for the rest of the run. */
  lemma CleanClose(states: seq<Sys>, actions: seq<Action>, i: nat, j: nat, t: nat)
    requires Run(states, actions) && i <= j <= |actions| && t in states[i].threads
        && states[i].threads[t] == Ended(ClosedCleanly)
    ensures states[j].jobs == map[] && states[j].wg == 0
    ensures forall u | u in states[j].threads :: !Holding(states[j].threads[u])
  {
    RunKeeps(states, actions, i);
    RunKeeps(states, actions, j);
    ClosedForGood(states, actions, i, j);
    var s := states[i];
    hide JobKey, Run, StatesFit;
    NoEntries(s);
    EndedStays(states, actions, i, j, t);
  }

  lemma NoEntries(s: Sys)
    requires Owned(s) && CountedThreads(s) == {}
    ensures s.jobs == map[]
  {
    hide JobKey, Holding;
    if k :| k in s.jobs { InCounted(s, s.jobs[k].owner); }
  }

  lemma EndedStep(s: Sys, a: Action, t: nat)
    requires Enabled(s, a) && t in s.threads && s.threads[t].Ended?
    ensures t in Next(s, a).threads && Next(s, a).threads[t] == s.threads[t]
  {
    hide JobKey, CancelAll, Owners;
  }

  lemma {:induction false} EndedStays(states: seq<Sys>, actions: seq<Action>, i: nat, j: nat, t: nat)
    requires Run(states, actions) && i <= j <= |actions| && t in states[i].threads && states[i].threads[t].Ended?
    ensures t in states[j].threads && states[j].threads[t] == states[i].threads[t]
    decreases j - i
  {
    hide *;
    RunLength(states, actions);
    if i < j {
      EndedStays(states, actions, i, j - 1, t);
      RunStep(states, actions, j - 1);
      EndedStep(states[j - 1], actions[j - 1], t);
    }
  }

  // ---------------------------------------------------------------- the code

  class NativeVerificationJobs {
    var jobs: map<string, Job>
    var closed: bool
    var wg: int
    /** The contexts that have been cancelled, by the thread that made them. */
    var cancelled: set<nat>

    function Table(threads: map<nat, Phase>): Sys
      reads this
    {
      Sys(jobs, closed, wg, cancelled, threads)
    }

    constructor ()
      ensures Table(map[]) == START
    {
      jobs, closed, wg, cancelled := map[], false, 0, {};
    }

    /** Request, from its lock to its unlock. */
    method RequestSection(t: nat, r: Request, lookup: Lookup, ghost threads: map<nat, Phase>) returns (p: Phase)
      modifies this
      ensures Table(threads[t := p]) == Admit(old(Table(threads)), t, r, lookup)
    {
      var key := JobKey(r);
      if key in jobs {
        var job := jobs[key];
        if job.request != r { return Ended(Denied); }
        return Ended(Live(job.state));
      }
      if lookup != Absent { return Ended(Durable(lookup)); }
      if closed || |jobs| >= CAPACITY { return Ended(Denied); }
      jobs := jobs[key := Job(r, Admitting, t)];
      wg := wg + 1;
      return Preparing(r);
    }

    /** Request once Prepare has succeeded: the job is reserved unless it was cancelled. */
    method ReserveSection(t: nat, r: Request, ghost threads: map<nat, Phase>) returns (p: Phase)
      requires JobKey(r) in jobs
      modifies this`jobs
      ensures Table(threads[t := p]) == Reserve(old(Table(threads)), t, r)
    {
      if t !in cancelled {
        jobs := jobs[JobKey(r) := jobs[JobKey(r)].(state := Reserved)];
      }
      return Executing(r, jobs[JobKey(r)].state);
    }

    /** The delete of Request after a failed Prepare, and of the executor. */
    method RemoveSection(t: nat, r: Request, p: Phase, ghost threads: map<nat, Phase>)
      modifies this`jobs
      ensures Table(threads[t := p]) == Drop(old(Table(threads)), t, r, p)
    {
      jobs := jobs - {JobKey(r)};
    }

    /** inspect, for Status and Cancel. */
    method InspectSection(t: nat, r: Request, lookup: Lookup, cancel: bool, ghost threads: map<nat, Phase>)
        returns (p: Phase)
      modifies this
      ensures Table(threads[t := p]) == Inspect(old(Table(threads)), t, r, lookup, cancel)
    {
      var key := JobKey(r);
      if key in jobs {
        var job := jobs[key];
        if job.request != r { return Ended(Denied); }
        if cancel {
          cancelled := cancelled + {job.owner};
          job := job.(state := CancellationRequested);
          jobs := jobs[key := job];
        }
        return Ended(Live(job.state));
      }
      return Ended(Durable(lookup));
    }

    /** Close, from its lock to its unlock: every job is cancelled. */
    method CloseSection(t: nat, ghost threads: map<nat, Phase>)
      modifies this
      ensures Table(threads[t := Waiting]) == CloseAll(old(Table(threads)), t)
    {
      closed := true;
      var left := jobs.Keys;
      ghost var before := jobs;
      while left != {}
        invariant left <= before.Keys && jobs.Keys == before.Keys && closed && wg == old(wg)
        invariant forall k | k in before ::
            jobs[k] == if k in left then before[k] else before[k].(state := CancellationRequested)
        invariant cancelled == old(cancelled) + set k | k in before && k !in left :: before[k].owner
        decreases left
      {
        var key :| key in left;
        left := left - {key};
        var job := jobs[key];
        cancelled := cancelled + {job.owner};
        jobs := jobs[key := job.(state := CancellationRequested)];
      }
    }
  }
}
