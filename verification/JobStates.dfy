/** What callers of the verification jobs are told (Request, Status and Cancel in
    internal/application/native_verification_async.go): in every interleaving the state
    of a job says how far its thread is and whether its context is cancelled. */
module JobStates {
  import opened Jobs

  /** The state of a job, read off the thread that works on it and off its context: asked to
      cancel once the context is cancelled, admitting until Prepare has succeeded,
      reserved from then on. A failed Prepare cancels the context without a word. */
  ghost predicate StateTold(job: Job, p: Phase, cancelled: bool) {
    && (p.Preparing? || p.Ready? ==> job.state == if cancelled then CancellationRequested else Admitting)
    && (p.Executing? || p.Finishing? ==> job.state == if cancelled then CancellationRequested else Reserved)
    && (p.Failing? ==> job.state != Reserved && cancelled)
  }

  ghost predicate Told(s: Sys) {
    forall k | k in s.jobs && s.jobs[k].owner in s.threads ::
      StateTold(s.jobs[k], s.threads[s.jobs[k].owner], s.jobs[k].owner in s.cancelled)
  }

  /** The entries, their states and the contexts of their owners are as before, and `t` goes
      on in a way that tells the same. */
  lemma QuietTold(s: Sys, s': Sys, t: nat, p: Phase)
    requires Told(s) && Owned(s) && s'.threads == s.threads[t := p] && s'.jobs == s.jobs
    requires forall k | k in s.jobs :: s.jobs[k].owner in s'.cancelled <==> s.jobs[k].owner in s.cancelled
    requires t in s.threads && Holding(s.threads[t]) ==>
      (s.threads[t].Preparing? && p.Ready?) || (s.threads[t].Executing? && p.Finishing?)
    ensures Told(s')
  {
    hide JobKey;
  }

  lemma FailTold(s: Sys, s': Sys, t: nat, p: Phase)
    requires Told(s) && Owned(s) && t in s.threads && s.threads[t].Preparing? && p.Failing?
    requires s'.threads == s.threads[t := p] && s'.jobs == s.jobs && s'.cancelled == s.cancelled + {t}
    ensures Told(s')
  {
    hide JobKey;
  }

  lemma AdmitTold(s: Sys, t: nat, r: Request, lookup: Lookup)
    requires Told(s) && Owned(s) && t in s.threads && s.threads[t].Asked? && t !in s.cancelled
    ensures Told(Admit(s, t, r, lookup))
  {
    hide JobKey;
  }

  lemma InspectTold(s: Sys, t: nat, r: Request, lookup: Lookup, cancel: bool)
    requires Told(s) && Owned(s) && t in s.threads && s.threads[t].Asked?
    ensures Told(Inspect(s, t, r, lookup, cancel))
  {
    hide JobKey;
    var key := JobKey(r);
    OwnersDiffer(s);
  }

  /** Two entries have two owners. */
  lemma OwnersDiffer(s: Sys)
    requires Owned(s)
    ensures forall k, l | k in s.jobs && l in s.jobs && k != l :: s.jobs[k].owner != s.jobs[l].owner
  {
    hide JobKey, Holding;
  }

  lemma ReserveTold(s: Sys, t: nat)
    requires Told(s) && Owned(s) && t in s.threads && s.threads[t].Ready?
    ensures Told(Reserve(s, t, s.threads[t].request))
  {
    hide JobKey;
  }

  lemma DropTold(s: Sys, a: Action)
    requires Told(s) && Owned(s) && Enabled(s, a) && (a.Abandons? || a.Removes?)
    ensures Told(Next(s, a))
  {
    hide JobKey;
    OwnersDiffer(s);
  }

  lemma CloseTold(s: Sys, t: nat)
    requires Told(s) && Owned(s) && t !in s.threads
    ensures Told(CloseAll(s, t))
  {
    hide JobKey;
  }

  /** Only threads that have admitted a job have a context to cancel. */
  ghost predicate FreshContexts(s: Sys) {
    forall t | t in s.cancelled :: t in s.threads && !s.threads[t].Asked?
  }

  lemma FreshStep(s: Sys, a: Action)
    requires FreshContexts(s) && Owned(s) && Enabled(s, a)
    ensures FreshContexts(Next(s, a))
  {
    hide JobKey;
  }

  lemma OwnSteps(s: Sys, a: Action)
    requires Owned(s) && Told(s) && Enabled(s, a) && (a.Prepares? || a.Executes?)
    ensures Told(Next(s, a))
  {
    hide JobKey, StateTold, Owned, Told;
    var n := Next(s, a);
    if a.Prepares? && a.outcome != Go {
      FailTold(s, n, a.t, n.threads[a.t]);
    } else {
      QuietTold(s, n, a.t, n.threads[a.t]);
    }
  }

  lemma OtherSteps(s: Sys, a: Action)
    requires Owned(s) && Told(s) && Enabled(s, a) && (a.Asks? || a.Leaves? || a.Waited? || a.TimesOut?)
    ensures Told(Next(s, a))
  {
    NoOwner(s, a.t);
    hide JobKey, StateTold, Owned, Told;
    var n := Next(s, a);
    QuietTold(s, n, a.t, n.threads[a.t]);
  }

  lemma NoOwner(s: Sys, t: nat)
    requires Owned(s) && (t in s.threads ==> !Holding(s.threads[t]))
    ensures forall k | k in s.jobs :: s.jobs[k].owner != t
  {
    hide JobKey, Holding;
  }

  lemma ToldStep(s: Sys, a: Action)
    requires Inv(s) && Told(s) && FreshContexts(s) && Enabled(s, a)
    ensures Told(Next(s, a)) && FreshContexts(Next(s, a))
  {
    hide *;
    InvParts(s);
    StepCases(s, a);
    FreshStep(s, a);
    if a.Enters? {
      EnterIs(s, a);
      var p := s.threads[a.t];
      NotCancelled(s, a.t);
      if p.purpose == ToRun { AdmitTold(s, a.t, p.request, p.lookup); }
          else { InspectTold(s, a.t, p.request, p.lookup, p.purpose == ToCancel); }
    } else if a.Reserves? {
      ReserveIs(s, a);
      ReserveTold(s, a.t);
    } else if a.Closes? {
      CloseIs(s, a);
      ClosesNew(s, a);
      CloseTold(s, a.t);
    } else if a.Abandons? || a.Removes? {
      DropTold(s, a);
    } else {
      if a.Prepares? || a.Executes? { OwnSteps(s, a); } else { OtherSteps(s, a); }
    }
  }

  lemma NotCancelled(s: Sys, t: nat)
    requires FreshContexts(s) && t in s.threads && s.threads[t].Asked?
    ensures t !in s.cancelled
  {}

  lemma ClosesNew(s: Sys, a: Action)
    requires Enabled(s, a) && a.Closes?
    ensures a.t !in s.threads
  {}

  lemma {:induction false} RunTold(states: seq<Sys>, actions: seq<Action>, n: nat)
    requires Run(states, actions) && n <= |actions|
    ensures |states| == |actions| + 1 && Told(states[n]) && FreshContexts(states[n])
    decreases n
  {
    RunLength(states, actions);
    if n == 0 {
      StartTold();
      RunStart(states, actions);
    } else {
      hide *;
      RunTold(states, actions, n - 1);
      RunKeeps(states, actions, n - 1);
      RunStep(states, actions, n - 1);
      ToldStep(states[n - 1], actions[n - 1]);
    }
  }

  lemma RunStart(states: seq<Sys>, actions: seq<Action>)
    requires Run(states, actions)
    ensures |states| > 0 && states[0] == START
  {
    hide Enabled, Next;
  }

  lemma StartTold()
    ensures Told(START) && FreshContexts(START)
  {}

  /** In every interleaving: while a thread works on a job, the job is in the table under
      its key and its state is the one that the thread's progress and its context make it. */
  lemma StateIsProgress(states: seq<Sys>, actions: seq<Action>, n: nat, t: nat)
    requires Run(states, actions) && n <= |actions|
    requires t in states[n].threads && Holding(states[n].threads[t])
    ensures var s, p := states[n], states[n].threads[t];
      var k := JobKey(p.request);
      && k in s.jobs && s.jobs[k].request == p.request
      && (p.Preparing? || p.Ready? ==> s.jobs[k].state == if t in s.cancelled then CancellationRequested else Admitting)
      && (p.Executing? || p.Finishing? ==>
            s.jobs[k].state == if t in s.cancelled then CancellationRequested else Reserved)
  {
    hide *;
    RunTold(states, actions, n);
    RunKeeps(states, actions, n);
    InvParts(states[n]);
    HeldEntry(states[n], t);
  }

  lemma HeldEntry(s: Sys, t: nat)
    requires Owned(s) && Told(s) && t in s.threads && Holding(s.threads[t])
    ensures var p := s.threads[t];
      var k := JobKey(p.request);
      && k in s.jobs && s.jobs[k].request == p.request && StateTold(s.jobs[k], p, t in s.cancelled)
      && (p.Preparing? || p.Ready? ==> s.jobs[k].state == if t in s.cancelled then CancellationRequested else Admitting)
      && (p.Executing? || p.Finishing? ==>
            s.jobs[k].state == if t in s.cancelled then CancellationRequested else Reserved)
  {
    hide JobKey;
  }

  /** Once Prepare has succeeded, Request reports the job reserved, unless somebody has
      cancelled it in the meantime, which it then reports. */
  lemma RequestTells(states: seq<Sys>, actions: seq<Action>, n: nat)
    requires Run(states, actions) && n < |actions| && actions[n].Reserves?
    ensures |states| == |actions| + 1
    ensures var t, next := actions[n].t, states[n + 1];
      && t in next.threads && next.threads[t].Executing?
      && next.threads[t].told == if t in states[n].cancelled then CancellationRequested else Reserved
  {
    RunStep(states, actions, n);
    RunTold(states, actions, n);
    RunKeeps(states, actions, n);
    hide Run;
    ReserveTells(states[n], actions[n]);
  }

  lemma ReserveTells(s: Sys, a: Action)
    requires Inv(s) && Told(s) && Enabled(s, a) && a.Reserves?
    ensures var n := Next(s, a);
      && a.t in n.threads && n.threads[a.t].Executing?
      && n.threads[a.t].told == if a.t in s.cancelled then CancellationRequested else Reserved
  {
    hide JobKey, StatesFit, CloseFits, CountedThreads;
  }

  /** A caller that has looked the operation up and finds a job under its key. */
  predicate Finds(s: Sys, p: Phase) { p.Asked? && JobKey(p.request) in s.jobs }

  /** The same request, asked again by whomever, starts nothing: it is told the state of the
      job that runs, and a Cancel makes that a cancelled one and cancels its context. */
  lemma LiveJobAnswers(s: Sys, a: Action)
    requires Inv(s) && Enabled(s, a) && a.Enters? && Finds(s, s.threads[a.t])
    ensures var p, n, k := s.threads[a.t], Next(s, a), JobKey(s.threads[a.t].request);
      && n.jobs.Keys == s.jobs.Keys && n.wg == s.wg
      && n.threads[a.t] == Ended(if s.jobs[k].request == p.request then Live(n.jobs[k].state) else Denied)
      && (if s.jobs[k].request == p.request && p.purpose == ToCancel
          then n.jobs[k].state == CancellationRequested && s.jobs[k].owner in n.cancelled
            && forall l | l in s.jobs && l != k :: n.jobs[l] == s.jobs[l]
          else n.jobs == s.jobs && n.cancelled == s.cancelled)
  {
    EnterIs(s, a);
    hide Inv, JobKey, Enabled, Next;
    var p := s.threads[a.t];
    assert p.purpose == ToRun || Next(s, a) == Inspect(s, a.t, p.request, p.lookup, p.purpose == ToCancel);
    assert Next(s, a).jobs.Keys == s.jobs.Keys;
  }

  /** Without a job under its key, a caller is told what the durable authority knows; a
      request for an operation it knows nothing of is denied when the table is closed or
      has two jobs, and otherwise starts the one new job. */
  lemma NoJobAnswers(s: Sys, a: Action)
    requires Inv(s) && Enabled(s, a) && a.Enters? && !Finds(s, s.threads[a.t])
    ensures var p, n, k := s.threads[a.t], Next(s, a), JobKey(s.threads[a.t].request);
      if p.purpose != ToRun || p.lookup != Absent then n == s.(threads := s.threads[a.t := Ended(Durable(p.lookup))])
      else if s.closed || |s.jobs| == 2 then n == s.(threads := s.threads[a.t := Ended(Denied)])
      else n == s.(jobs := s.jobs[k := Job(p.request, Admitting, a.t)], wg := s.wg + 1,
                   threads := s.threads[a.t := Preparing(p.request)])
  {
    EnterIs(s, a);
    InvParts(s);
    hide Inv, Owned, StatesFit, CloseFits, CountedThreads, JobKey, Enabled, Next;
    var p := s.threads[a.t];
    assert Next(s, a) == if p.purpose == ToRun then Admit(s, a.t, p.request, p.lookup)
      else Inspect(s, a.t, p.request, p.lookup, p.purpose == ToCancel);
  }

  /** A definitive result is told at once and touches no job. A request whose Prepare fails
      cancels its own context, takes its entry out before it tells the failure, and tells
      a receipt as a completed operation. */
  lemma FailedRequestTells(s: Sys, a: Action)
    requires Inv(s) && Enabled(s, a)
    ensures a.Asks? ==>
      Next(s, a) == s.(threads := s.threads[a.t :=
        if a.lookup in {Completed, Interrupted} then Ended(Durable(a.lookup))
            else Asked(a.request, a.lookup, a.purpose)])
    ensures a.Prepares? && a.outcome != Go ==>
      && a.t in Next(s, a).cancelled && Next(s, a).jobs == s.jobs
      && Next(s, a).threads[a.t] == Failing(s.threads[a.t].request, a.outcome == Receipt)
    ensures a.Abandons? ==>
      && Next(s, a).jobs == s.jobs - {JobKey(s.threads[a.t].request)} && JobKey(s.threads[a.t].request) in s.jobs
      && Next(s, a).threads[a.t] == Leaving(if s.threads[a.t].receipt then Durable(Completed) else Failure)
    ensures a.Leaves? ==> Next(s, a).threads[a.t] == Ended(s.threads[a.t].answer) && Next(s, a).wg == s.wg - 1
  {
    InvParts(s);
    hide Inv, StatesFit, CloseFits, CountedThreads, JobKey, Admit, Inspect, Reserve, CloseAll;
  }

  /** Two requests share a key only if they are of one worker and one operation. */
  lemma KeyNames(r: Request, q: Request)
    requires ':' !in r.worker && ':' !in q.worker
    ensures JobKey(r) == JobKey(q) <==> r.worker == q.worker && r.operation == q.operation
  {
    var a, b := JobKey(r), JobKey(q);
    if a == b {
      assert a[|r.worker|] == ':' && b[|q.worker|] == ':';
      assert forall i | 0 <= i < |r.worker| :: a[i] == r.worker[i] && r.worker[i] in r.worker;
      assert forall i | 0 <= i < |q.worker| :: b[i] == q.worker[i] && q.worker[i] in q.worker;
      assert |r.worker| == |q.worker|;
      assert r.worker == a[..|r.worker|] == q.worker;
      assert r.operation == a[|r.worker| + 1..] == q.operation;
    }
  }
}
