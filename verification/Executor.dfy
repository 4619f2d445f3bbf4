/**
 The executor: worker threads that take jobs from a queue, callers that submit jobs, and a caller
 that terminates the executor, as steps that may interleave in any way. A step is one operation on
 the shared flag or on one of the two queues, or the start or the end of a job.
 */
module Executors {
  import opened BlockingQueues

  /** A task, by its identity: jobs are compared by their task. */
  type Job = nat

  datatype Phase = Taken | Listed | Started | Ran | Leaving

  /** Where a worker thread is in its loop. */
  datatype Worker =
    | Checking                       // at the head of the loop
    | Polling                        // the flag was not set; about to take a job
    | Holding(job: Job, phase: Phase)
    | Empty                          // there was no job; about to look at the flag again
    | Waiting                        // at the condition variable
    | Done

  /** Where `terminate` is. */
  datatype Terminator = Idle | Draining | Joining(k: nat) | Returned

  datatype State = State(
    waiting: seq<Job>, running: seq<Job>, shutdown: bool, threads: seq<Worker>, terminator: Terminator,
    submitting: set<Job>,            // past the test of the flag, not yet in the queue
    issued: set<Job>, submitted: seq<Job>, taken: seq<Job>, started: seq<Job>, finished: seq<Job>,
    asked: seq<Job>, dropped: seq<Job>)

  datatype Step =
    | Work(i: nat)                   // the next thing that thread i does
    | SubmitTest(job: Job)
    | SubmitAdd(job: Job)
    | Terminate                      // the next thing that `terminate` does

  function Init(coreSize: nat): (s: State)
  {
    State([], [], false, seq(coreSize, _ => Checking), Idle, {}, {}, [], [], [], [], [], [])
  }

  /** A job is submitted once. `terminate` waits for a thread to end before it goes on. */
  predicate Enabled(s: State, step: Step)
  {
    match step
    case Work(i) => i < |s.threads| && s.threads[i] != Done
    case SubmitTest(job) => job !in s.issued
    case SubmitAdd(job) => job in s.submitting
    case Terminate =>
      s.terminator.Joining? && s.terminator.k < |s.threads| ==> s.threads[s.terminator.k] == Done
  }

  function Moved(s: State, i: nat, w: Worker): (t: State)
    requires i < |s.threads|
  {
    s.(threads := s.threads[i := w])
  }

  /** One turn of a worker, `Impl::exec`. */
  function WorkStep(s: State, i: nat): (t: State)
    requires i < |s.threads|
  {
    match s.threads[i]
    case Checking => Moved(s, i, if s.shutdown then Done else Polling)
    case Polling =>
      if s.waiting == [] then Moved(s, i, Empty)
      else Moved(s, i, Holding(s.waiting[0], Taken)).(waiting := s.waiting[1..], taken := s.taken + [s.waiting[0]])
    case Holding(job, Taken) => Moved(s, i, Holding(job, Listed)).(running := s.running + [job])
    case Holding(job, Listed) => Moved(s, i, Holding(job, Started)).(started := s.started + [job])
    case Holding(job, Started) => Moved(s, i, Holding(job, Ran)).(finished := s.finished + [job])
    case Holding(job, Ran) => Moved(s, i, if s.shutdown then Checking else Holding(job, Leaving))
    case Holding(job, Leaving) => Moved(s, i, Checking).(running := Without(s.running, job))
    case Empty => Moved(s, i, if s.shutdown then Checking else Waiting)
    case Waiting => Moved(s, i, Checking)
    case Done => s
  }

  function TerminateStep(s: State): (t: State)
  {
    match s.terminator
    case Idle => s.(shutdown := true, terminator := Draining)
    case Returned => s.(shutdown := true, terminator := Draining)
    case Draining =>
      if s.running == [] then s.(terminator := Joining(0))
      else s.(running := s.running[1..], asked := s.asked + [s.running[0]])
    case Joining(k) =>
      if k < |s.threads| then s.(terminator := Joining(k + 1))
      else s.(terminator := Returned, waiting := [], dropped := s.dropped + s.waiting)
  }

  function Apply(s: State, step: Step): (t: State)
    requires Enabled(s, step)
    ensures |t.threads| == |s.threads|
  {
    match step
    case Work(i) => WorkStep(s, i)
    case SubmitTest(job) =>
      if s.shutdown then s.(issued := s.issued + {job})
      else s.(issued := s.issued + {job}, submitting := s.submitting + {job})
    case SubmitAdd(job) =>
      s.(submitting := s.submitting - {job}, waiting := s.waiting + [job], submitted := s.submitted + [job])
    case Terminate => TerminateStep(s)
  }

  /** A run: every step is enabled where it is taken. */
  predicate Run(s: State, steps: seq<Step>)
    decreases |steps|
  {
    steps == [] || (Enabled(s, steps[0]) && Run(Apply(s, steps[0]), steps[1..]))
  }

  function After(s: State, steps: seq<Step>): (t: State)
    requires Run(s, steps)
    ensures |t.threads| == |s.threads|
    decreases |steps|
  {
    if steps == [] then s else After(Apply(s, steps[0]), steps[1..])
  }

  // ---------- the jobs in the hands of the threads ----------

  function Held(w: Worker): (m: multiset<Job>)
  {
    if w.Holding? && w.phase in {Taken, Listed, Started} then multiset{w.job} else multiset{}
  }

  function Begun(w: Worker): (m: multiset<Job>)
  {
    if w.Holding? && w.phase == Started then multiset{w.job} else multiset{}
  }

  function Unlisted(w: Worker): (m: multiset<Job>)
  {
    if w.Holding? && w.phase == Taken then multiset{w.job} else multiset{}
  }

  function All(f: Worker -> multiset<Job>, ws: seq<Worker>): (m: multiset<Job>)
  {
    if ws == [] then multiset{} else All(f, ws[..|ws| - 1]) + f(ws[|ws| - 1])
  }

  lemma {:induction false} AllMoved(f: Worker -> multiset<Job>, ws: seq<Worker>, i: nat, w: Worker)
    requires i < |ws|
    ensures All(f, ws[i := w]) + f(ws[i]) == All(f, ws) + f(w)
    ensures f(ws[i]) == multiset{} ==> All(f, ws[i := w]) == All(f, ws) + f(w)
    ensures f(w) == multiset{} ==> All(f, ws) == All(f, ws[i := w]) + f(ws[i])
    ensures f(w) == f(ws[i]) ==> All(f, ws[i := w]) == All(f, ws)
  {
    var n := |ws| - 1;
    if i < n {
      AllMoved(f, ws[..n], i, w);
      assert ws[i := w][..n] == ws[..n][i := w];
      Regroup(All(f, ws[..n][i := w]), f(ws[n]), f(ws[i]), All(f, ws[..n]), f(w));
    } else {
      assert ws[i := w][..n] == ws[..n];
      Regroup(All(f, ws[..n]), f(w), f(ws[n]), All(f, ws[..n]), f(w));
    }
    Cancel(All(f, ws[i := w]), f(ws[i]), All(f, ws), f(w));
  }

  lemma Regroup(a: multiset<Job>, x: multiset<Job>, y: multiset<Job>, b: multiset<Job>, z: multiset<Job>)
    ensures a + y == b + z ==> (a + x) + y == (b + x) + z
    ensures (a + x) + y == (a + y) + x
  {
    assert (a + x) + y == (a + y) + x;
    assert (b + x) + z == (b + z) + x;
  }

  lemma Cancel(a: multiset<Job>, x: multiset<Job>, b: multiset<Job>, y: multiset<Job>)
    requires a + x == b + y
    ensures x == multiset{} ==> a == b + y
    ensures y == multiset{} ==> b == a + x
    ensures x == y ==> a == b
  {
    assert x == multiset{} ==> a + x == a;
    assert y == multiset{} ==> b + y == b;
    assert x == y ==> a == (a + x) - x == (b + y) - y == b;
  }

  lemma {:induction false} AllNothing(f: Worker -> multiset<Job>, ws: seq<Worker>)
    requires forall i :: 0 <= i < |ws| ==> f(ws[i]) == multiset{}
    ensures All(f, ws) == multiset{}
  {
    if ws != [] {
      AllNothing(f, ws[..|ws| - 1]);
    }
  }

  lemma {:induction false} AtMostOneEach(ws: seq<Worker>)
    ensures |All(Held, ws)| <= |ws|
  {
    if ws != [] {
      AtMostOneEach(ws[..|ws| - 1]);
    }
  }

  // ---------- what every step keeps ----------

  predicate AllDone(s: State)
  {
    forall i :: 0 <= i < |s.threads| ==> s.threads[i] == Done
  }

  /** Jobs leave the queue in the order in which they came; what was dropped came last. */
  predicate Ordered(s: State)
  {
    s.submitted == s.taken + s.dropped + s.waiting && (s.dropped != [] ==> AllDone(s))
  }

  predicate Conserved(s: State)
  {
    && multiset(s.taken) == All(Held, s.threads) + multiset(s.finished)
    && multiset(s.started) == All(Begun, s.threads) + multiset(s.finished)
  }

  /** A task is asked to end at most once, and only after it was taken. */
  predicate Asked(s: State)
  {
    multiset(s.running) + multiset(s.asked) + All(Unlisted, s.threads) <= multiset(s.taken)
  }

  predicate Distinct(s: State)
  {
    && (forall j :: j in s.submitted ==> j in s.issued && j !in s.submitting)
    && s.submitting <= s.issued
    && (forall i, j :: 0 <= i < j < |s.submitted| ==> s.submitted[i] != s.submitted[j])
  }

  predicate Stopping(s: State)
  {
    match s.terminator
    case Idle => true
    case Draining => s.shutdown
    case Joining(k) => s.shutdown && k <= |s.threads| && forall i :: 0 <= i < k ==> s.threads[i] == Done
    case Returned => s.shutdown && AllDone(s)
  }

  predicate Inv(s: State)
  {
    Ordered(s) && Conserved(s) && Asked(s) && Distinct(s) && Stopping(s)
  }

  lemma InitInv(coreSize: nat)
    ensures Inv(Init(coreSize))
  {
    var ws := Init(coreSize).threads;
    AllNothing(Held, ws);
    AllNothing(Begun, ws);
    AllNothing(Unlisted, ws);
  }

  lemma StepOrdered(s: State, step: Step)
    requires Ordered(s) && Stopping(s) && Enabled(s, step)
    ensures Ordered(Apply(s, step))
  {
    if step.Work? {
      WorkOrdered(s, step.i);
    }
  }

  lemma WorkOrdered(s: State, i: nat)
    requires Ordered(s) && Stopping(s) && i < |s.threads|
    ensures Ordered(WorkStep(s, i))
  {
    var t := WorkStep(s, i);
    if s.threads[i].Polling? && s.waiting != [] {
      assert s.dropped == [];
      assert s.taken + s.waiting == t.taken + t.waiting;
    }
  }

  lemma StepConserved(s: State, step: Step)
    requires Conserved(s) && Enabled(s, step)
    ensures Conserved(Apply(s, step))
  {
    hide All;
    if step.Work? {
      WorkConserved(s, step.i);
    }
  }

  lemma WorkConserved(s: State, i: nat)
    requires Conserved(s) && i < |s.threads|
    ensures Conserved(WorkStep(s, i))
  {
    hide All, Conserved;
    var w, t := s.threads[i], WorkStep(s, i);
    match w {
      case Polling => if s.waiting == [] { Quiet(s, i, t.threads[i], t); } else { Poll(s, i, s.waiting[0], t); }
      case Holding(job, Listed) => Begin(s, i, job, t);
      case Holding(job, Started) => End(s, i, job, t);
      case _ => Quiet(s, i, t.threads[i], t);
    }
  }

  /** Steps that neither take nor begin nor end a job. */
  lemma Quiet(s: State, i: nat, w: Worker, t: State)
    requires Conserved(s) && i < |s.threads| && t.threads == s.threads[i := w]
    requires Held(w) == Held(s.threads[i]) && Begun(w) == Begun(s.threads[i])
    requires t.taken == s.taken && t.started == s.started && t.finished == s.finished
    ensures Conserved(t)
  {
    hide All, Held, Begun;
    AllMoved(Held, s.threads, i, w);
    AllMoved(Begun, s.threads, i, w);
  }

  lemma Poll(s: State, i: nat, j: Job, t: State)
    requires Conserved(s) && i < |s.threads| && s.threads[i] == Polling && t.threads == s.threads[i := Holding(j, Taken)]
    requires t.taken == s.taken + [j] && t.started == s.started && t.finished == s.finished
    ensures Conserved(t)
  {
    hide All;
    AllMoved(Held, s.threads, i, Holding(j, Taken));
    AllMoved(Begun, s.threads, i, Holding(j, Taken));
    Grow(multiset(s.taken), All(Held, s.threads), multiset(s.finished), j);
  }

  lemma Begin(s: State, i: nat, j: Job, t: State)
    requires Conserved(s) && i < |s.threads| && s.threads[i] == Holding(j, Listed)
    requires t.threads == s.threads[i := Holding(j, Started)]
    requires t.taken == s.taken && t.started == s.started + [j] && t.finished == s.finished
    ensures Conserved(t)
  {
    hide All;
    AllMoved(Held, s.threads, i, Holding(j, Started));
    AllMoved(Begun, s.threads, i, Holding(j, Started));
    Grow(multiset(s.started), All(Begun, s.threads), multiset(s.finished), j);
  }

  lemma End(s: State, i: nat, j: Job, t: State)
    requires Conserved(s) && i < |s.threads| && s.threads[i] == Holding(j, Started)
    requires t.threads == s.threads[i := Holding(j, Ran)]
    requires t.taken == s.taken && t.started == s.started && t.finished == s.finished + [j]
    ensures Conserved(t)
  {
    hide All;
    AllMoved(Held, s.threads, i, Holding(j, Ran));
    AllMoved(Begun, s.threads, i, Holding(j, Ran));
    Shift(multiset(s.taken), All(Held, s.threads), All(Held, t.threads), multiset(s.finished), j);
    Shift(multiset(s.started), All(Begun, s.threads), All(Begun, t.threads), multiset(s.finished), j);
  }

  lemma Grow(whole: multiset<Job>, held: multiset<Job>, rest: multiset<Job>, j: Job)
    requires whole == held + rest
    ensures whole + multiset{j} == (held + multiset{j}) + rest
  {
  }

  lemma Shift(whole: multiset<Job>, held: multiset<Job>, less: multiset<Job>, rest: multiset<Job>, j: Job)
    requires whole == held + rest && held == less + multiset{j}
    ensures whole == less + (rest + multiset{j})
  {
  }

  lemma StepAsked(s: State, step: Step)
    requires Asked(s) && Enabled(s, step)
    ensures Asked(Apply(s, step))
  {
    hide All;
    if step.Work? {
      WorkAsked(s, step.i);
    } else if step.Terminate? && s.terminator == Draining && s.running != [] {
      assert s.running == [s.running[0]] + s.running[1..];
    }
  }

  lemma WorkAsked(s: State, i: nat)
    requires Asked(s) && i < |s.threads|
    ensures Asked(WorkStep(s, i))
  {
    hide All, Asked;
    var w, t := s.threads[i], WorkStep(s, i);
    match w {
      case Polling => if s.waiting == [] { Unasked(s, i, t.threads[i], t); } else { Take(s, i, s.waiting[0], t); }
      case Holding(job, Taken) => Enlist(s, i, job, t);
      case Holding(job, Leaving) => Retire(s, i, job, t);
      case _ => Unasked(s, i, t.threads[i], t);
    }
  }

  lemma Unasked(s: State, i: nat, w: Worker, t: State)
    requires Asked(s) && i < |s.threads| && t.threads == s.threads[i := w] && Unlisted(w) == Unlisted(s.threads[i])
    requires t.running == s.running && t.asked == s.asked && t.taken == s.taken
    ensures Asked(t)
  {
    hide All, Unlisted;
    AllMoved(Unlisted, s.threads, i, w);
  }

  lemma Take(s: State, i: nat, j: Job, t: State)
    requires Asked(s) && i < |s.threads| && s.threads[i] == Polling && t.threads == s.threads[i := Holding(j, Taken)]
    requires t.running == s.running && t.asked == s.asked && t.taken == s.taken + [j]
    ensures Asked(t)
  {
    hide All;
    AllMoved(Unlisted, s.threads, i, Holding(j, Taken));
    var a, u := multiset(s.running) + multiset(s.asked), All(Unlisted, s.threads);
    assert a + (u + multiset{j}) == (a + u) + multiset{j};
  }

  lemma Enlist(s: State, i: nat, j: Job, t: State)
    requires Asked(s) && i < |s.threads| && s.threads[i] == Holding(j, Taken)
    requires t.threads == s.threads[i := Holding(j, Listed)]
    requires t.running == s.running + [j] && t.asked == s.asked && t.taken == s.taken
    ensures Asked(t)
  {
    hide All;
    AllMoved(Unlisted, s.threads, i, Holding(j, Listed));
    var r, a, u := multiset(s.running), multiset(s.asked), All(Unlisted, t.threads);
    assert (r + multiset{j}) + a + u == r + a + (u + multiset{j});
  }

  lemma Retire(s: State, i: nat, j: Job, t: State)
    requires Asked(s) && i < |s.threads| && s.threads[i] == Holding(j, Leaving)
    requires t.threads == s.threads[i := Checking]
    requires t.running == Without(s.running, j) && t.asked == s.asked && t.taken == s.taken
    ensures Asked(t)
  {
    hide All, Without;
    AllMoved(Unlisted, s.threads, i, Checking);
    WithoutKeeps(s.running, j);
  }

  lemma StepDistinct(s: State, step: Step)
    requires Distinct(s) && Enabled(s, step)
    ensures Distinct(Apply(s, step))
  {
  }

  lemma StepStopping(s: State, step: Step)
    requires Stopping(s) && Enabled(s, step)
    ensures Stopping(Apply(s, step))
  {
  }

  /** The invariant holds after every run, whatever the interleaving. */
  lemma {:induction false} RunInv(s: State, steps: seq<Step>)
    requires Inv(s) && Run(s, steps)
    ensures Inv(After(s, steps))
    decreases |steps|
  {
    hide Ordered, Conserved, Asked, Distinct, Stopping, Apply, Enabled;
    if steps != [] {
      StepOrdered(s, steps[0]);
      StepConserved(s, steps[0]);
      StepAsked(s, steps[0]);
      StepDistinct(s, steps[0]);
      StepStopping(s, steps[0]);
      RunInv(Apply(s, steps[0]), steps[1..]);
    }
  }

  // ---------- what a run can rely on ----------

  predicate Distinctly(q: seq<Job>)
  {
    forall i, j :: 0 <= i < j < |q| ==> q[i] != q[j]
  }

  lemma {:induction false} OnceEach(q: seq<Job>)
    ensures Distinctly(q) <==> forall j :: multiset(q)[j] <= 1
  {
    if q != [] {
      var p, last := q[..|q| - 1], q[|q| - 1];
      OnceEach(p);
      assert q == p + [last];
      assert multiset(q) == multiset(p) + multiset{last};
      if Distinctly(q) {
        assert Distinctly(p);
        assert last !in p;
        assert multiset(p)[last] == 0;
      }
      if forall j :: multiset(q)[j] <= 1 {
        assert forall j :: multiset(p)[j] <= multiset(q)[j];
        assert multiset(q)[last] == multiset(p)[last] + 1;
        assert last !in multiset(p);
      }
    }
  }

  lemma FewerOnce(q: seq<Job>, r: seq<Job>)
    requires Distinctly(q) && multiset(r) <= multiset(q)
    ensures Distinctly(r)
  {
    OnceEach(q);
    OnceEach(r);
  }

  /** After every run with any number of threads: what was queued is waiting, in the hands of a
      thread, finished or dropped; jobs are taken in the order in which they were queued; no job
      is taken, started or finished twice, and no task is asked to end twice; and the threads hold
      at most one job each. */
  lemma Safety(coreSize: nat, steps: seq<Step>)
    requires Run(Init(coreSize), steps)
    ensures var s := After(Init(coreSize), steps);
            && multiset(s.submitted) == All(Held, s.threads) + multiset(s.finished) + multiset(s.dropped) + multiset(s.waiting)
            && s.taken <= s.submitted && Distinctly(s.taken)
            && Distinctly(s.started) && multiset(s.started) <= multiset(s.taken)
            && Distinctly(s.finished) && multiset(s.finished) <= multiset(s.started)
            && Distinctly(s.asked) && multiset(s.asked) <= multiset(s.taken)
            && |All(Held, s.threads)| <= coreSize
  {
    hide Init, Run, After, All;
    InitInv(coreSize);
    RunInv(Init(coreSize), steps);
    var s := After(Init(coreSize), steps);
    AtMostOneEach(s.threads);
    InitThreads(coreSize);
    Parts(s);
  }

  lemma InitThreads(coreSize: nat)
    ensures |Init(coreSize).threads| == coreSize
  {
  }

  lemma Parts(s: State)
    requires Inv(s)
    ensures multiset(s.submitted) == All(Held, s.threads) + multiset(s.finished) + multiset(s.dropped) + multiset(s.waiting)
    ensures s.taken <= s.submitted && Distinctly(s.taken)
    ensures Distinctly(s.started) && multiset(s.started) <= multiset(s.taken)
    ensures Distinctly(s.finished) && multiset(s.finished) <= multiset(s.started)
    ensures Distinctly(s.asked) && multiset(s.asked) <= multiset(s.taken)
  {
    hide All, Stopping;
    BegunHeld(s.threads);
    assert multiset(s.submitted) == multiset(s.taken) + multiset(s.dropped) + multiset(s.waiting);
    FewerOnce(s.submitted, s.taken);
    FewerOnce(s.taken, s.started);
    FewerOnce(s.started, s.finished);
    FewerOnce(s.taken, s.asked);
  }

  lemma {:induction false} BegunHeld(ws: seq<Worker>)
    ensures All(Begun, ws) <= All(Held, ws)
  {
    if ws != [] {
      BegunHeld(ws[..|ws| - 1]);
    }
  }

  /** Once `terminate` has returned no thread holds a job, and whatever happens afterwards nothing
      is taken or started any more. */
  lemma {:induction false} NothingAfterReturn(s: State, steps: seq<Step>)
    requires Inv(s) && s.terminator == Returned && Run(s, steps)
    ensures All(Held, s.threads) == multiset{}
    ensures var t := After(s, steps);
            t.taken == s.taken && t.started == s.started && t.finished == s.finished && t.threads == s.threads
  {
    AllNothing(Held, s.threads);
    DoneStays(s, steps);
  }

  lemma {:induction false} DoneStays(s: State, steps: seq<Step>)
    requires AllDone(s) && Run(s, steps)
    ensures var t := After(s, steps);
            t.taken == s.taken && t.started == s.started && t.finished == s.finished && t.threads == s.threads
    decreases |steps|
  {
    if steps != [] {
      var t := Apply(s, steps[0]);
      assert t.threads == s.threads && t.taken == s.taken && t.started == s.started && t.finished == s.finished;
      DoneStays(t, steps[1..]);
    }
  }

  // ---------- who is asked to end ----------

  /** A job that its thread has listed is in the list, or its task was asked to end; a job that
      has run is finished. */
  predicate Followed(s: State)
  {
    forall i :: 0 <= i < |s.threads| && s.threads[i].Holding? ==> FollowedAt(s, s.threads[i])
  }

  predicate FollowedAt(s: State, w: Worker)
    requires w.Holding?
  {
    && (w.phase in {Listed, Started} ==> w.job in s.running || w.job in s.asked)
    && (w.phase in {Ran, Leaving} ==> w.job in s.finished)
  }

  lemma {:induction false} HeldIn(ws: seq<Worker>, k: nat)
    requires k < |ws|
    ensures Held(ws[k]) <= All(Held, ws)
  {
    var n := |ws| - 1;
    if k < n {
      HeldIn(ws[..n], k);
    }
  }

  /** A job in the hands of a thread is not finished. */
  lemma HeldNotFinished(s: State, k: nat)
    requires Inv(s) && k < |s.threads| && s.threads[k].Holding? && s.threads[k].phase in {Listed, Started}
    ensures s.threads[k].job !in s.finished
  {
    hide All, Asked, Stopping;
    var job := s.threads[k].job;
    HeldIn(s.threads, k);
    assert multiset(s.taken) <= multiset(s.submitted) by {
      assert multiset(s.submitted) == multiset(s.taken) + multiset(s.dropped) + multiset(s.waiting);
    }
    FewerOnce(s.submitted, s.taken);
    OnceEach(s.taken);
    assert Held(s.threads[k]) == multiset{job};
    assert multiset(s.taken)[job] == All(Held, s.threads)[job] + multiset(s.finished)[job];
  }

  lemma StaysIn(q: seq<Job>, e: Job, other: Job)
    requires other in q && other != e
    ensures other in Without(q, e)
  {
    WithoutKeeps(q, e);
    assert other in multiset(q);
    assert other in multiset(Without(q, e));
  }

  lemma WorkFollowed(s: State, i: nat)
    requires Inv(s) && Followed(s) && i < |s.threads|
    ensures Followed(WorkStep(s, i))
  {
    hide Inv, Without, FollowedAt;
    var w, t := s.threads[i], WorkStep(s, i);
    forall k | 0 <= k < |t.threads| && t.threads[k].Holding?
      ensures FollowedAt(t, t.threads[k])
    {
      if k == i {
        OwnFollowed(s, i);
      } else {
        OtherFollowed(s, i, k);
      }
    }
  }

  lemma OwnFollowed(s: State, i: nat)
    requires Inv(s) && Followed(s) && i < |s.threads| && WorkStep(s, i).threads[i].Holding?
    ensures FollowedAt(WorkStep(s, i), WorkStep(s, i).threads[i])
  {
    hide Inv, Without;
    if s.threads[i].Holding? {
      assert FollowedAt(s, s.threads[i]);
    }
  }

  lemma OtherFollowed(s: State, i: nat, k: nat)
    requires Inv(s) && Followed(s) && i < |s.threads| && k < |s.threads| && k != i && s.threads[k].Holding?
    ensures FollowedAt(WorkStep(s, i), s.threads[k])
  {
    hide Inv, Without;
    var w := s.threads[i];
    assert FollowedAt(s, s.threads[k]);
    if s.threads[k].phase in {Listed, Started} && w.Holding? && w.phase == Leaving {
      HeldNotFinished(s, k);
      assert FollowedAt(s, w);
      if s.threads[k].job in s.running {
        StaysIn(s.running, w.job, s.threads[k].job);
      }
    }
  }

  lemma StepFollowed(s: State, step: Step)
    requires Inv(s) && Followed(s) && Enabled(s, step)
    ensures Followed(Apply(s, step))
  {
    hide Inv, WorkStep;
    if step.Work? {
      WorkFollowed(s, step.i);
    } else {
      var t := Apply(s, step);
      forall k | 0 <= k < |t.threads| && t.threads[k].Holding?
        ensures FollowedAt(t, t.threads[k])
      {
        assert FollowedAt(s, s.threads[k]);
        if step.Terminate? && s.terminator == Draining && s.running != [] {
          assert s.running == [s.running[0]] + s.running[1..];
        }
      }
    }
  }

  lemma {:induction false} RunFollowed(s: State, steps: seq<Step>)
    requires Inv(s) && Followed(s) && Run(s, steps)
    ensures Followed(After(s, steps))
    decreases |steps|
  {
    hide Inv, Followed, Apply, Enabled;
    if steps != [] {
      StepFollowed(s, steps[0]);
      assert [steps[0]][1..] == [];
      RunInv(s, [steps[0]]);
      RunFollowed(Apply(s, steps[0]), steps[1..]);
    }
  }

  /** While the list is empty every task that a thread has listed was asked to end. */
  lemma AllListedAsked(coreSize: nat, steps: seq<Step>)
    requires Run(Init(coreSize), steps)
    ensures var s := After(Init(coreSize), steps);
            s.running == [] ==>
              forall i :: 0 <= i < |s.threads| && s.threads[i].Holding? && s.threads[i].phase in {Listed, Started} ==>
                s.threads[i].job in s.asked
  {
    hide Inv, Run, After;
    InitInv(coreSize);
    assert Followed(Init(coreSize));
    RunFollowed(Init(coreSize), steps);
    var s := After(Init(coreSize), steps);
    forall i | 0 <= i < |s.threads| && s.threads[i].Holding?
      ensures FollowedAt(s, s.threads[i])
    {
    }
  }

  // ---------- when a task is never asked ----------

  /** A thread is at a task that was not asked to end. */
  predicate EscapedAt(s: State, w: Worker)
  {
    w.Holding? && w.phase == Started && w.job !in s.asked
  }

  predicate Escaped(s: State)
  {
    exists i :: 0 <= i < |s.threads| && EscapedAt(s, s.threads[i])
  }

  ghost predicate CanEscape(s: State)
  {
    exists steps: seq<Step> :: Run(s, steps) && Escaped(After(s, steps))
  }

  lemma EscapesNow(s: State)
    requires Escaped(s)
    ensures CanEscape(s)
  {
    assert Run(s, []) && After(s, []) == s;
  }

  lemma EscapesLater(s: State, step: Step)
    requires Enabled(s, step) && CanEscape(Apply(s, step))
    ensures CanEscape(s)
  {
    hide Enabled, Apply, Escaped;
    var t := Apply(s, step);
    var rest :| Run(t, rest) && Escaped(After(t, rest));
    var steps := [step] + rest;
    assert steps[1..] == rest;
    assert Run(s, steps) && After(s, steps) == After(t, rest);
  }

  predicate GuardedAt(s: State, w: Worker)
    requires w.Holding?
  {
    w.phase != Taken && (w.phase in {Listed, Started} ==> w.job in s.asked)
  }

  predicate NonePolling(s: State)
  {
    forall i :: 0 <= i < |s.threads| ==> s.threads[i] != Polling
  }

  /** No thread is between taking a job and listing it, none is at a listed job without having
      been asked, and none is about to look for a job while there is one or one may still come. */
  predicate Guarded(s: State)
  {
    && (forall i :: 0 <= i < |s.threads| && s.threads[i].Holding? ==> GuardedAt(s, s.threads[i]))
    && (NonePolling(s) || (s.waiting == [] && s.submitting == {}))
  }

  lemma GuardedWork(s: State, i: nat)
    requires s.shutdown && Guarded(s) && i < |s.threads|
    ensures WorkStep(s, i).shutdown && Guarded(WorkStep(s, i))
  {
    hide Without;
    var t := WorkStep(s, i);
    forall k | 0 <= k < |t.threads| && t.threads[k].Holding?
      ensures GuardedAt(t, t.threads[k])
    {
      assert s.threads[k].Holding? ==> GuardedAt(s, s.threads[k]);
    }
  }

  lemma GuardedOther(s: State, step: Step)
    requires s.shutdown && Guarded(s) && Enabled(s, step) && !step.Work?
    ensures Apply(s, step).shutdown && Guarded(Apply(s, step))
  {
    var t := Apply(s, step);
    forall k | 0 <= k < |t.threads| && t.threads[k].Holding?
      ensures GuardedAt(t, t.threads[k])
    {
      assert GuardedAt(s, s.threads[k]);
    }
  }

  lemma {:induction false} GuardedRun(s: State, steps: seq<Step>)
    requires s.shutdown && Guarded(s) && Run(s, steps)
    ensures !Escaped(After(s, steps))
    decreases |steps|
  {
    if steps == [] {
      forall i | 0 <= i < |s.threads|
        ensures !EscapedAt(s, s.threads[i])
      {
        assert s.threads[i].Holding? ==> GuardedAt(s, s.threads[i]);
      }
    } else {
      hide Guarded, Escaped, WorkStep;
      if steps[0].Work? {
        GuardedWork(s, steps[0].i);
      } else {
        GuardedOther(s, steps[0]);
      }
      GuardedRun(Apply(s, steps[0]), steps[1..]);
    }
  }

  lemma StartedEscapes(s: State, i: nat, j: Job)
    requires i < |s.threads| && s.threads[i] == Holding(j, Started) && j !in s.asked
    ensures CanEscape(s)
  {
    assert EscapedAt(s, s.threads[i]);
    EscapesNow(s);
  }

  lemma ListedEscapes(s: State, i: nat, j: Job)
    requires i < |s.threads| && s.threads[i] == Holding(j, Listed) && j !in s.asked
    ensures CanEscape(s)
  {
    hide CanEscape;
    StartedEscapes(Apply(s, Work(i)), i, j);
    EscapesLater(s, Work(i));
  }

  lemma TakenEscapes(s: State, i: nat, j: Job)
    requires i < |s.threads| && s.threads[i] == Holding(j, Taken) && j !in s.asked
    ensures CanEscape(s)
  {
    hide CanEscape;
    ListedEscapes(Apply(s, Work(i)), i, j);
    EscapesLater(s, Work(i));
  }

  lemma PollingEscapes(s: State, i: nat)
    requires i < |s.threads| && s.threads[i] == Polling && s.waiting != [] && s.waiting[0] !in s.asked
    ensures CanEscape(s)
  {
    hide CanEscape;
    TakenEscapes(Apply(s, Work(i)), i, s.waiting[0]);
    EscapesLater(s, Work(i));
  }

  lemma ComingEscapes(s: State, i: nat, j: Job)
    requires i < |s.threads| && s.threads[i] == Polling && s.waiting == [] && j in s.submitting && j !in s.asked
    ensures CanEscape(s)
  {
    hide CanEscape;
    PollingEscapes(Apply(s, SubmitAdd(j)), i);
    EscapesLater(s, SubmitAdd(j));
  }

  lemma {:induction false} UnlistedIn(ws: seq<Worker>, k: nat)
    requires k < |ws|
    ensures Unlisted(ws[k]) <= All(Unlisted, ws)
  {
    var n := |ws| - 1;
    if k < n {
      UnlistedIn(ws[..n], k);
    }
  }

  /** Only what was taken is asked, and what is taken but not listed was not asked yet. */
  lemma WaitingNotAsked(s: State, j: Job)
    requires Inv(s) && (j in s.waiting || j in s.submitting)
    ensures j !in s.asked
  {
    hide All, Conserved, Stopping;
    assert multiset(s.submitted) == multiset(s.taken) + multiset(s.dropped) + multiset(s.waiting);
    assert Distinctly(s.submitted);
    OnceEach(s.submitted);
    assert multiset(s.submitted)[j] <= 1;
    assert multiset(s.submitted)[j] == multiset(s.taken)[j] + multiset(s.dropped)[j] + multiset(s.waiting)[j];
    assert multiset(s.asked)[j] <= multiset(s.taken)[j];
    if j in s.waiting {
      assert multiset(s.waiting)[j] >= 1;
      assert multiset(s.taken)[j] == 0;
    } else {
      assert j !in multiset(s.submitted);
    }
    assert j !in multiset(s.asked);
  }

  lemma TakenNotAsked(s: State, i: nat)
    requires Inv(s) && i < |s.threads| && s.threads[i].Holding? && s.threads[i].phase == Taken
    ensures s.threads[i].job !in s.asked
  {
    hide All, Conserved, Stopping;
    var j := s.threads[i].job;
    assert multiset(s.submitted) == multiset(s.taken) + multiset(s.dropped) + multiset(s.waiting);
    assert Distinctly(s.submitted);
    OnceEach(s.submitted);
    assert multiset(s.submitted)[j] <= 1;
    assert multiset(s.submitted)[j] == multiset(s.taken)[j] + multiset(s.dropped)[j] + multiset(s.waiting)[j];
    UnlistedIn(s.threads, i);
    assert Unlisted(s.threads[i]) == multiset{j};
    assert multiset(s.asked)[j] + All(Unlisted, s.threads)[j] <= multiset(s.taken)[j];
    assert j !in multiset(s.asked);
  }

  lemma Unguarded(s: State)
    requires Inv(s) && !Guarded(s)
    ensures CanEscape(s)
  {
    hide Inv, CanEscape;
    if i :| 0 <= i < |s.threads| && s.threads[i].Holding? && !GuardedAt(s, s.threads[i]) {
      if s.threads[i].phase == Taken {
        TakenNotAsked(s, i);
        TakenEscapes(s, i, s.threads[i].job);
      } else if s.threads[i].phase == Listed {
        ListedEscapes(s, i, s.threads[i].job);
      } else {
        StartedEscapes(s, i, s.threads[i].job);
      }
    } else {
      var i :| 0 <= i < |s.threads| && s.threads[i] == Polling;
      if s.waiting != [] {
        WaitingNotAsked(s, s.waiting[0]);
        PollingEscapes(s, i);
      } else {
        var j :| j in s.submitting;
        WaitingNotAsked(s, j);
        ComingEscapes(s, i, j);
      }
    }
  }

  /** While `terminate` waits for the threads, it can be told from the state whether some thread
      may still run a task that is not asked to end: after any run, and for any number of threads. */
  lemma EscapeExactly(coreSize: nat, steps: seq<Step>)
    requires Run(Init(coreSize), steps) && After(Init(coreSize), steps).terminator.Joining?
    ensures var s := After(Init(coreSize), steps); CanEscape(s) <==> !Guarded(s)
  {
    hide CanEscape, Guarded, Run, After, Init, Conserved, Asked, Distinct, Ordered;
    InitInv(coreSize);
    RunInv(Init(coreSize), steps);
    var s := After(Init(coreSize), steps);
    if Guarded(s) {
      NeverEscapes(s);
    } else {
      Unguarded(s);
    }
  }

  lemma NeverEscapes(s: State)
    requires s.shutdown && Guarded(s)
    ensures !CanEscape(s)
  {
    hide Guarded, Escaped;
    forall steps: seq<Step> | Run(s, steps)
      ensures !Escaped(After(s, steps))
    {
      GuardedRun(s, steps);
    }
  }

  /** When the list is found empty and `terminate` turns to the threads, the condition is that no
      thread has taken a job that it has not listed, and that none is about to look for a job,
      unless there is none and no caller is about to queue one. */
  lemma EscapeAtJoin(coreSize: nat, steps: seq<Step>)
    requires Run(Init(coreSize), steps)
    requires var s := After(Init(coreSize), steps); s.terminator == Joining(0) && s.running == []
    ensures var s := After(Init(coreSize), steps);
            !CanEscape(s) <==>
              && (forall i :: 0 <= i < |s.threads| && s.threads[i].Holding? ==> s.threads[i].phase != Taken)
              && (NonePolling(s) || (s.waiting == [] && s.submitting == {}))
  {
    hide CanEscape, Run, After, Init, NonePolling;
    EscapeExactly(coreSize, steps);
    AllListedAsked(coreSize, steps);
    var s := After(Init(coreSize), steps);
    forall i | 0 <= i < |s.threads| && s.threads[i].Holding? && s.threads[i].phase != Taken
      ensures GuardedAt(s, s.threads[i])
    {
    }
  }

  // ---------- what a run cannot rely on ----------

  ghost predicate Reachable(coreSize: nat, s: State)
  {
    exists steps: seq<Step> :: Run(Init(coreSize), steps) && After(Init(coreSize), steps) == s
  }

  lemma {:induction false} OneMore(s: State, steps: seq<Step>, step: Step)
    requires Run(s, steps) && Enabled(After(s, steps), step)
    ensures Run(s, steps + [step]) && After(s, steps + [step]) == Apply(After(s, steps), step)
    decreases |steps|
  {
    if steps == [] {
      assert steps + [step] == [step];
      assert [step][1..] == [];
    } else {
      assert (steps + [step])[1..] == steps[1..] + [step];
      OneMore(Apply(s, steps[0]), steps[1..], step);
    }
  }

  lemma Go(coreSize: nat, s: State, step: Step) returns (t: State)
    requires Reachable(coreSize, s) && Enabled(s, step)
    ensures Reachable(coreSize, t) && t == Apply(s, step)
  {
    hide Run, After, Apply, Enabled;
    var steps :| Run(Init(coreSize), steps) && After(Init(coreSize), steps) == s;
    OneMore(Init(coreSize), steps, step);
    t := Apply(s, step);
  }

  lemma Start(coreSize: nat) returns (s: State)
    ensures Reachable(coreSize, s) && s == Init(coreSize)
  {
    s := Init(coreSize);
    assert Run(s, []) && After(s, []) == s;
  }

  /** A caller that tested the flag in time may queue its job after `terminate` has cleared the
      queue: the job stays there until the next `terminate`. */
  lemma MayLeaveBehind()
    ensures exists s :: Reachable(1, s) && s.terminator == Returned && s.waiting == [7]
  {
    hide Reachable;
    var s := Start(1);
    s := Go(1, s, SubmitTest(7));
    s := Go(1, s, Terminate);
    s := Go(1, s, Work(0));
    s := Go(1, s, Terminate);
    s := Go(1, s, Terminate);
    s := Go(1, s, Terminate);
    s := Go(1, s, SubmitAdd(7));
  }

  /** A thread that took its job before the flag was set may list it after the list was drained:
      then `terminate` waits for a task that was never asked to end. */
  lemma MayNotAsk()
    ensures exists s :: Reachable(1, s) && s.terminator == Joining(0) && s.threads == [Holding(7, Started)] && s.asked == []
  {
    hide Reachable;
    var s := TakenLate();
    s := Go(1, s, Work(0));
    s := Go(1, s, Work(0));
  }

  lemma TakenLate() returns (s: State)
    ensures Reachable(1, s) && s.terminator == Joining(0) && s.threads == [Holding(7, Taken)] && s.asked == []
  {
    hide Reachable;
    s := Start(1);
    s := Go(1, s, SubmitTest(7));
    s := Go(1, s, SubmitAdd(7));
    s := Go(1, s, Work(0));
    s := Go(1, s, Work(0));
    s := Go(1, s, Terminate);
    s := Go(1, s, Terminate);
  }

  ghost predicate NeverLeft(s: State)
  {
    forall steps: seq<Step> :: Run(s, steps) ==> After(s, steps).waiting == []
  }

  /** Whether a job can be left behind is settled when `terminate` returns: it can, exactly when
      some caller is already past the test of the flag. */
  lemma LeftBehindExactly(s: State)
    requires Inv(s) && s.terminator == Returned && s.waiting == []
    ensures NeverLeft(s) <==> s.submitting == {}
  {
    hide Run, After, Apply;
    if s.submitting == {} {
      forall steps: seq<Step> | Run(s, steps)
        ensures After(s, steps).waiting == []
      {
        StaysEmpty(s, steps);
      }
    } else {
      var job :| job in s.submitting;
      LateAdd(s, job);
      assert Run(s, [SubmitAdd(job)]);
    }
  }

  lemma LateAdd(s: State, job: Job)
    requires job in s.submitting && s.waiting == []
    ensures Run(s, [SubmitAdd(job)]) && After(s, [SubmitAdd(job)]).waiting == [job]
  {
    OneMore(s, [], SubmitAdd(job));
    assert [] + [SubmitAdd(job)] == [SubmitAdd(job)];
  }

  lemma {:induction false} StaysEmpty(s: State, steps: seq<Step>)
    requires s.shutdown && s.submitting == {} && s.waiting == [] && AllDone(s) && Run(s, steps)
    ensures After(s, steps).waiting == []
    decreases |steps|
  {
    if steps != [] {
      StaysEmpty(Apply(s, steps[0]), steps[1..]);
    }
  }

  /** What is left behind is never taken: it stays in the queue until `terminate` is called again and
      drops it. */
  lemma {:induction false} NeverTaken(s: State, steps: seq<Step>, job: Job)
    requires Inv(s) && s.terminator == Returned && job in s.waiting && Run(s, steps)
    ensures var t := After(s, steps);
            job !in t.taken && (job in t.waiting || job in t.dropped)
  {
    hide All, Held, Begun;
    NothingAfterReturn(s, steps);
    WaitingNotTaken(s, job);
    KeptOrDropped(s, steps, job);
  }

  lemma WaitingNotTaken(s: State, job: Job)
    requires Inv(s) && job in s.waiting
    ensures job !in s.taken
  {
    assert multiset(s.submitted) == multiset(s.taken) + multiset(s.dropped) + multiset(s.waiting);
    assert Distinctly(s.submitted);
    OnceEach(s.submitted);
    assert multiset(s.submitted)[job] <= 1;
    assert job in multiset(s.waiting);
    assert job !in multiset(s.taken);
  }

  lemma {:induction false} KeptOrDropped(s: State, steps: seq<Step>, job: Job)
    requires AllDone(s) && (job in s.waiting || job in s.dropped) && Run(s, steps)
    ensures var t := After(s, steps); job in t.waiting || job in t.dropped
    decreases |steps|
  {
    if steps != [] {
      KeptOrDropped(Apply(s, steps[0]), steps[1..], job);
    }
  }

  /** The next call of `terminate`, undisturbed, empties the queue. */
  lemma NextTerminateDrops(s: State)
    requires Inv(s) && s.terminator == Returned
    ensures exists steps: seq<Step> :: (forall i :: 0 <= i < |steps| ==> steps[i] == Terminate) && Run(s, steps)
              && After(s, steps).terminator == Returned && After(s, steps).waiting == []
              && After(s, steps).dropped == s.dropped + s.waiting
  {
    var t := Apply(s, Terminate);
    var steps := Finish(t);
    assert ([Terminate] + steps)[1..] == steps;
    assert Run(s, [Terminate] + steps) && After(s, [Terminate] + steps) == After(t, steps);
  }

  /** The steps that are left of `terminate`, when no thread has to be waited for. */
  lemma {:induction false} Finish(s: State) returns (steps: seq<Step>)
    requires AllDone(s) && (s.terminator.Draining? || (s.terminator.Joining? && s.terminator.k <= |s.threads|))
    ensures forall i :: 0 <= i < |steps| ==> steps[i] == Terminate
    ensures Run(s, steps)
    ensures var t := After(s, steps); t.terminator == Returned && t.waiting == [] && t.dropped == s.dropped + s.waiting
    decreases if s.terminator.Draining? then |s.running| + |s.threads| + 2 else |s.threads| - s.terminator.k
  {
    var t := Apply(s, Terminate);
    var rest := [];
    if t.terminator != Returned {
      rest := Finish(t);
    }
    steps := [Terminate] + rest;
    assert steps[1..] == rest;
  }
}
