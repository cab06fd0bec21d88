// Jobs pushed to one queue by any number of threads. Whoever makes the queue
// non-empty owns its execution, and may pass it on through the global queue.
module JobQueue {
  import opened Wrappers

  type Agent = int

  // A thread of execution, in Push or in Execute.
  datatype Place =
    | Idle
    | Counted(job: int, first: bool)
    | Deciding
    | Entering
    | Running
    | Checking

  // executor is the one agent that owns the execution, if any; announced says
  // that the queue is in the global queue. pushed and executed record the
  // order in which jobs entered and ran; batch is what was popped and ran is
  // how many jobs of it have run.
  datatype State = State(
    count: int, jobs: seq<int>, announced: nat, places: map<Agent, Place>,
    executor: Option<Agent>, counting: set<Agent>, batch: seq<int>, ran: nat, pushed: seq<int>, executed: seq<int>)

  function PlaceOf(s: State, t: Agent): Place {
    if t in s.places then s.places[t] else Idle
  }

  datatype Step =
    | Add(job: int)
    | PushJob
    | Decide(execute: bool)
    | TakeGlobal
    | PopAll
    | RunJob
    | Subtract
    | Check(timeUp: bool)

  predicate Enabled(s: State, t: Agent, step: Step) {
    var p := PlaceOf(s, t);
    match step
    case Add(job) => p.Idle?
    case PushJob => p.Counted?
    case Decide(execute) => p.Deciding?
    case TakeGlobal => p.Idle? && s.announced > 0
    case PopAll => p.Entering?
    case RunJob => p.Running? && s.ran < |s.batch|
    case Subtract => p.Running? && s.ran >= |s.batch|
    case Check(timeUp) => p.Checking?
  }

  function At(s: State, t: Agent, p: Place): State {
    s.(places := s.places[t := p])
  }

  function Apply(s: State, t: Agent, step: Step): State
    requires Enabled(s, t, step)
  {
    match step
    // _jobCount.fetch_add(1)
    case Add(job) =>
      var s1 := At(s, t, Counted(job, s.count == 0));
      s1.(count := s.count + 1, counting := s.counting + {t},
          executor := if s.count == 0 then Some(t) else s.executor)
    case PushJob =>
      var p := PlaceOf(s, t);
      var s1 := At(s, t, if p.first then Deciding else Idle);
      s1.(jobs := s.jobs + [p.job], pushed := s.pushed + [p.job], counting := s.counting - {t})
    case Decide(execute) =>
      if execute then At(s, t, Entering) else Announced(s, t)
    case TakeGlobal =>
      At(s, t, Entering).(announced := s.announced - 1, executor := Some(t))
    case PopAll => At(s, t, Running).(batch := s.jobs, ran := 0, jobs := [])
    case RunJob => s.(executed := s.executed + [s.batch[s.ran]], ran := s.ran + 1)
    // _jobCount.fetch_sub(jobCount) == jobCount
    case Subtract =>
      var n := |s.batch|;
      var s1 := s.(count := s.count - n, batch := [], ran := 0);
      if s.count == n then At(s1, t, Idle).(executor := None) else At(s1, t, Checking)
    case Check(timeUp) =>
      if timeUp then Announced(s, t) else At(s, t, Entering)
  }

  // GGlobalQueue->Push
  function Announced(s: State, t: Agent): State {
    At(s, t, Idle).(announced := s.announced + 1, executor := None)
  }

  // ---------- the invariant ----------

  predicate Executes(p: Place) {
    (p.Counted? && p.first) || p.Deciding? || p.Entering? || p.Running? || p.Checking?
  }

  ghost predicate PlaceOk(s: State, t: Agent) {
    (s.executor == Some(t) <==> Executes(PlaceOf(s, t))) && (t in s.counting <==> PlaceOf(s, t).Counted?)
  }

  ghost predicate PlacesOk(s: State) {
    forall t :: PlaceOk(s, t)
  }

  // Whenever jobs are counted, exactly one agent executes the queue or it is
  // announced exactly once; otherwise neither is the case.
  predicate OneToken(s: State) {
    (if s.executor.Some? then 1 else 0) + s.announced == if s.count > 0 then 1 else 0
  }

  // Every job pushed has run, is being run, or waits, in the order of pushing.
  predicate InOrder(s: State) {
    s.ran <= |s.batch| && s.pushed == s.executed + s.batch[s.ran..] + s.jobs
  }

  ghost predicate BatchOk(s: State) {
    s.batch != [] || s.ran != 0 ==> s.executor.Some? && PlaceOf(s, s.executor.value).Running?
  }

  ghost predicate Inv(s: State) {
    && PlacesOk(s) && OneToken(s) && InOrder(s) && BatchOk(s)
    && s.count == |s.jobs| + |s.batch| + |s.counting|
  }

  function Start(): (s: State)
    ensures Inv(s)
  {
    State(0, [], 0, map[], None, {}, [], 0, [], [])
  }

  lemma PushKeepsOrder(s: State, job: int)
    requires InOrder(s)
    ensures InOrder(s.(jobs := s.jobs + [job], pushed := s.pushed + [job]))
  {
    assert s.executed + s.batch[s.ran..] + (s.jobs + [job]) == (s.executed + s.batch[s.ran..] + s.jobs) + [job];
  }

  lemma PopKeepsOrder(s: State)
    requires InOrder(s) && s.batch == []
    ensures InOrder(s.(batch := s.jobs, ran := 0, jobs := []))
  {
    assert s.executed + [] + s.jobs == s.executed + s.jobs[0..] + [];
  }

  lemma RunKeepsOrder(s: State)
    requires InOrder(s) && s.ran < |s.batch|
    ensures InOrder(s.(executed := s.executed + [s.batch[s.ran]], ran := s.ran + 1))
  {
    assert s.batch[s.ran..] == [s.batch[s.ran]] + s.batch[s.ran + 1..];
    assert s.executed + ([s.batch[s.ran]] + s.batch[s.ran + 1..]) + s.jobs
        == (s.executed + [s.batch[s.ran]]) + s.batch[s.ran + 1..] + s.jobs;
  }

  lemma EndKeepsOrder(s: State)
    requires InOrder(s) && s.ran >= |s.batch|
    ensures InOrder(s.(batch := [], ran := 0))
  {
    var none: seq<int> := [];
    assert s.batch[s.ran..] == none && none[0..] == none;
  }

  lemma ApplyOrder(s: State, t: Agent, step: Step)
    requires Inv(s) && Enabled(s, t, step)
    ensures InOrder(Apply(s, t, step))
  {
    assert PlaceOk(s, t);
    match step
    case PushJob => PushKeepsOrder(s, PlaceOf(s, t).job);
    case PopAll => PopKeepsOrder(s);
    case RunJob => RunKeepsOrder(s);
    case Subtract => EndKeepsOrder(s);
    case _ =>
  }

  lemma ApplyCounts(s: State, t: Agent, step: Step)
    requires Inv(s) && Enabled(s, t, step)
    ensures var s' := Apply(s, t, step);
            OneToken(s') && BatchOk(s') && s'.count == |s'.jobs| + |s'.batch| + |s'.counting|
  {
    hide InOrder;
    assert PlaceOk(s, t);
    hide PlacesOk;
    match step
    case Add(job) =>
    case PushJob =>
    case Decide(execute) =>
    case TakeGlobal =>
    case PopAll =>
    case RunJob =>
    case Subtract =>
    case Check(timeUp) =>
  }

  lemma ApplyPlaces(s: State, t: Agent, step: Step)
    requires Inv(s) && Enabled(s, t, step)
    ensures PlacesOk(Apply(s, t, step))
  {
    hide InOrder, BatchOk, OneToken, Apply, Enabled, PlaceOk;
    var s' := Apply(s, t, step);
    assert PlaceOk(s, t);
    forall u ensures PlaceOk(s', u) {
      assert PlaceOk(s, u);
      ApplyPlace(s, t, step, u);
    }
  }

  lemma ApplyPlace(s: State, t: Agent, step: Step, u: Agent)
    requires OneToken(s) && Enabled(s, t, step) && PlaceOk(s, t) && PlaceOk(s, u)
    ensures PlaceOk(Apply(s, t, step), u)
  {
    match step
    case Add(job) =>
    case PushJob =>
    case Decide(execute) =>
    case TakeGlobal =>
    case PopAll =>
    case RunJob =>
    case Subtract =>
    case Check(timeUp) =>
  }

  lemma ApplyInv(s: State, t: Agent, step: Step)
    requires Inv(s) && Enabled(s, t, step)
    ensures Inv(Apply(s, t, step))
  {
    hide PlacesOk, OneToken, InOrder, BatchOk, Apply, Enabled;
    ApplyOrder(s, t, step);
    ApplyCounts(s, t, step);
    ApplyPlaces(s, t, step);
  }

  // ---------- giving way and taking up ----------

  // Who is out of time, or may not execute, announces the queue and is free
  // for other work; nothing that waits is touched.
  lemma GivesWay(s: State, t: Agent, step: Step)
    requires Inv(s) && Enabled(s, t, step) && (step == Check(true) || step == Decide(false))
    ensures var s' := Apply(s, t, step);
            && PlaceOf(s', t).Idle? && s'.executor.None? && s'.announced == 1
            && s'.jobs == s.jobs && s'.count == s.count > 0
  {
    hide PlacesOk, InOrder, BatchOk;
    ExecutorIs(s, t);
  }

  lemma ExecutorIs(s: State, t: Agent)
    requires Inv(s)
    ensures s.executor == Some(t) <==> Executes(PlaceOf(s, t))
  {
    assert PlaceOk(s, t);
  }

  // Who has time left goes on with what has come in meanwhile, and who ends
  // the last batch leaves an empty queue.
  lemma GoesOnOrEnds(s: State, t: Agent, step: Step)
    requires Inv(s) && Enabled(s, t, step)
    ensures step == Check(false) ==> PlaceOf(Apply(s, t, step), t).Entering?
    ensures step.Subtract? ==>
              if s.jobs == [] && s.counting == {} then PlaceOf(Apply(s, t, step), t).Idle? && Apply(s, t, step).count == 0
              else PlaceOf(Apply(s, t, step), t).Checking?
  {
    hide PlacesOk, InOrder;
  }

  // While jobs are counted and nobody is at work, any thread that is free can
  // take the queue up.
  lemma WorkIsTakenUp(s: State, t: Agent)
    requires Inv(s) && s.count > 0 && forall u :: PlaceOf(s, u).Idle?
    ensures s.announced == 1 && Enabled(s, t, TakeGlobal) && PlaceOf(Apply(s, t, TakeGlobal), t).Entering?
  {
    hide PlacesOk, InOrder, BatchOk;
    ExecutorIs(s, if s.executor.Some? then s.executor.value else t);
  }

  // ---------- every run ----------

  datatype Event = Event(agent: Agent, step: Step)

  ghost predicate AllowedRun(s: State, events: seq<Event>)
    requires Inv(s)
    decreases |events|
  {
    events == [] ||
    (&& Enabled(s, events[0].agent, events[0].step)
     && (ApplyInv(s, events[0].agent, events[0].step);
         AllowedRun(Apply(s, events[0].agent, events[0].step), events[1..])))
  }

  ghost function Final(s: State, events: seq<Event>): State
    requires Inv(s) && AllowedRun(s, events)
    decreases |events|
  {
    if events == [] then s else
    ApplyInv(s, events[0].agent, events[0].step);
    Final(Apply(s, events[0].agent, events[0].step), events[1..])
  }

  lemma {:induction false} RunInv(s: State, events: seq<Event>)
    requires Inv(s) && AllowedRun(s, events)
    ensures Inv(Final(s, events))
    decreases |events|
  {
    if events != [] {
      ApplyInv(s, events[0].agent, events[0].step);
      hide Inv, Apply, Enabled;
      RunInv(Apply(s, events[0].agent, events[0].step), events[1..]);
    }
  }

  // Under any interleaving of pushes and executions, at most one agent
  // executes the queue, and the jobs run so far are the first of those
  // pushed, each once and in the order of pushing.
  lemma JobsRunOneAtATimeInOrder(events: seq<Event>, t: Agent, u: Agent)
    requires AllowedRun(Start(), events)
    ensures var s := Final(Start(), events);
            && (Executes(PlaceOf(s, t)) && Executes(PlaceOf(s, u)) ==> t == u)
            && s.executed <= s.pushed
  {
    hide Final, AllowedRun;
    RunInv(Start(), events);
    var s := Final(Start(), events);
    assert PlaceOk(s, t);
    assert PlaceOk(s, u);
    assert s.pushed[..|s.executed|] == s.executed;
  }

  // No job is forgotten: once no agent is in Push or Execute and the queue is
  // not announced, every job pushed has run.
  lemma NoJobIsForgotten(events: seq<Event>)
    requires AllowedRun(Start(), events)
    requires var s := Final(Start(), events);
             (forall t :: PlaceOf(s, t).Idle?) && s.announced == 0
    ensures var s := Final(Start(), events); s.executed == s.pushed
  {
    hide Final, AllowedRun;
    RunInv(Start(), events);
    var s := Final(Start(), events);
    var t := if s.executor.Some? then s.executor.value else 0;
    assert PlaceOk(s, t);
  }
}
