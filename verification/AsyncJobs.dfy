/** Long queries that run in the background: a table of records that is swept as it is used. */
module AsyncJobs {
  import opened Text

  type Id = nat
  type Time = int

  datatype Status = Pending | Completed(data: string) | Failed(error: string)

  datatype Job = Job(team: Id, createdAt: Time, status: Status)

  type Jobs = map<Id, Job>

  const ASYNC_TTL_MS: Time := 5 * 60 * 1000

  predicate Expired(j: Job, now: Time) { j.createdAt < now - ASYNC_TTL_MS }

  /** The records a sweep keeps. */
  function Swept(jobs: Jobs, now: Time): Jobs { map i | i in jobs && !Expired(jobs[i], now) :: jobs[i] }

  function Start(jobs: Jobs, id: Id, team: Id, now: Time): Jobs { Swept(jobs, now)[id := Job(team, now, Pending)] }

  /** The record is written anew, whether or not the pending one is still there. */
  function Settle(jobs: Jobs, id: Id, team: Id, result: Status, now: Time): Jobs { jobs[id := Job(team, now, result)] }

  function Lookup(jobs: Jobs, id: Id): Option<Job> { if id in jobs then Some(jobs[id]) else None }

  class QueryService {
    var asyncJobs: Jobs

    constructor ()
      ensures asyncJobs == map[]
    {
      asyncJobs := map[];
    }

    method CleanupAsyncJobs(now: Time)
      modifies this
      ensures asyncJobs == Swept(old(asyncJobs), now)
    {
      var cutoff := now - ASYNC_TTL_MS;
      var entries := asyncJobs;
      var todo := entries.Keys;
      while todo != {}
        invariant todo <= entries.Keys
        invariant asyncJobs == map i | i in entries && (i in todo || !Expired(entries[i], now)) :: entries[i]
        decreases |todo|
      {
        var id :| id in todo;
        if entries[id].createdAt < cutoff { asyncJobs := asyncJobs - {id}; }
        todo := todo - {id};
      }
    }

    method StartAsyncJob(team: Id, requestId: Id, now: Time)
      modifies this
      ensures asyncJobs == Start(old(asyncJobs), requestId, team, now)
    {
      CleanupAsyncJobs(now);
      asyncJobs := asyncJobs[requestId := Job(team, now, Pending)];
    }

    /** What the producer's promise does when it settles. */
    method ProducerSettled(requestId: Id, team: Id, data: string, error: Option<string>, now: Time)
      modifies this
      ensures asyncJobs ==
        Settle(old(asyncJobs), requestId, team, if error.Some? then Failed(error.value) else Completed(data), now)
    {
      if error.Some? {
        asyncJobs := asyncJobs[requestId := Job(team, now, Failed(error.value))];
      } else {
        asyncJobs := asyncJobs[requestId := Job(team, now, Completed(data))];
      }
    }

    method GetAsyncJob(requestId: Id, now: Time) returns (job: Option<Job>)
      modifies this
      ensures asyncJobs == Swept(old(asyncJobs), now) && job == Lookup(asyncJobs, requestId)
    {
      CleanupAsyncJobs(now);
      if requestId !in asyncJobs { return None; }
      job := Some(asyncJobs[requestId]);
    }
  }

  // ---- runs: jobs started, settling and polled in any order while the clock moves on

  datatype Event = Started(id: Id, team: Id)
                 | Settled(id: Id, team: Id, result: Status)
                 | Polled(id: Id)
                 | Ticked(ms: nat)

  datatype System = System(jobs: Jobs, now: Time)

  /** The service: the table is swept by every start and every poll. */
  function Step(s: System, e: Event): System {
    match e
    case Started(id, team) => s.(jobs := Start(s.jobs, id, team, s.now))
    case Settled(id, team, result) => s.(jobs := Settle(s.jobs, id, team, result, s.now))
    case Polled(_) => s.(jobs := Swept(s.jobs, s.now))
    case Ticked(ms) => s.(now := s.now + ms)
  }

  /** What a poll answers. */
  function Answer(s: System, id: Id): Option<Job> { Lookup(Swept(s.jobs, s.now), id) }

  /** The reference: a table that forgets nothing and is never swept. */
  function RefStep(r: System, e: Event): System {
    match e
    case Started(id, team) => r.(jobs := r.jobs[id := Job(team, r.now, Pending)])
    case Settled(id, team, result) => r.(jobs := r.jobs[id := Job(team, r.now, result)])
    case Polled(_) => r
    case Ticked(ms) => r.(now := r.now + ms)
  }

  function RefAnswer(r: System, id: Id): Option<Job> {
    if id in r.jobs && !Expired(r.jobs[id], r.now) then Some(r.jobs[id]) else None
  }

  /** Ids are new; a producer settles once, in the name of the team it was started for. */
  predicate Legal(r: System, e: Event) {
    match e
    case Started(id, _) => id !in r.jobs
    case Settled(id, team, result) =>
      id in r.jobs && r.jobs[id].status.Pending? && r.jobs[id].team == team && !result.Pending?
    case _ => true
  }

  function Run(events: seq<Event>, start: Time): System {
    if events == [] then System(map[], start) else Step(Run(events[..|events| - 1], start), events[|events| - 1])
  }

  function RefRun(events: seq<Event>, start: Time): System {
    if events == [] then System(map[], start) else RefStep(RefRun(events[..|events| - 1], start), events[|events| - 1])
  }

  ghost predicate IsRun(events: seq<Event>, start: Time) {
    forall k :: 0 <= k < |events| ==> Legal(RefRun(events[..k], start), events[k])
  }

  // ---- the swept table answers like the one that forgets nothing

  ghost predicate Agree(s: System, r: System) {
    && s.now == r.now
    && (forall i <- s.jobs :: i in r.jobs && s.jobs[i] == r.jobs[i])
    && (forall i <- r.jobs :: i in s.jobs || Expired(r.jobs[i], r.now))
  }

  lemma StepAgrees(s: System, r: System, e: Event)
    requires Agree(s, r) && Legal(r, e)
    ensures Agree(Step(s, e), RefStep(r, e))
  {
  }

  /** Sweeping is invisible: every poll of every run answers what the unswept table would, the record
      last written unless it is older than the TTL. */
  lemma {:induction false} PollsIgnoreSweeps(events: seq<Event>, start: Time, k: nat, id: Id)
    requires IsRun(events, start) && k <= |events|
    ensures Agree(Run(events[..k], start), RefRun(events[..k], start))
    ensures Answer(Run(events[..k], start), id) == RefAnswer(RefRun(events[..k], start), id)
    decreases k
  {
    hide Step, RefStep, Legal;
    if k > 0 {
      PollsIgnoreSweeps(events, start, k - 1, id);
      assert Legal(RefRun(events[..k - 1], start), events[k - 1]);
      assert events[..k][..k - 1] == events[..k - 1];
      StepAgrees(Run(events[..k - 1], start), RefRun(events[..k - 1], start), events[k - 1]);
    }
  }

  // ---- what is written once

  /** An id keeps its record and its team; a settled record keeps everything. */
  ghost predicate Grows(r: System, r': System) {
    && r.now <= r'.now
    && (forall i <- r.jobs :: i in r'.jobs && r'.jobs[i].team == r.jobs[i].team)
    && (forall i <- r.jobs :: !r.jobs[i].status.Pending? ==> r'.jobs[i] == r.jobs[i])
  }

  lemma GrowsStep(r: System, r': System, e: Event)
    requires Grows(r, r') && Legal(r', e)
    ensures Grows(r, RefStep(r', e))
  {
  }

  lemma {:induction false} RunsGrow(events: seq<Event>, start: Time, k: nat, b: nat)
    requires IsRun(events, start) && k <= b <= |events|
    ensures Grows(RefRun(events[..k], start), RefRun(events[..b], start))
    decreases b
  {
    hide RefStep, RefRun, Legal;
    if k < b {
      RunsGrow(events, start, k, b - 1);
      RefOneMore(events, start, b - 1);
      GrowsStep(RefRun(events[..k], start), RefRun(events[..b - 1], start), events[b - 1]);
    }
  }

  lemma RefOneMore(events: seq<Event>, start: Time, k: nat)
    requires IsRun(events, start) && k < |events|
    ensures Legal(RefRun(events[..k], start), events[k])
    ensures RefRun(events[..k + 1], start) == RefStep(RefRun(events[..k], start), events[k])
  {
    hide Legal;
    assert events[..k + 1][..k] == events[..k];
  }

  /** A job that settled is returned, with its result and its team, by every poll up to one TTL later
      and by none after that, whether or not its pending record had been swept before. */
  lemma SettledIsReturned(events: seq<Event>, start: Time, k: nat, b: nat)
    requires IsRun(events, start) && k < b <= |events| && events[k].Settled?
    ensures var t := Run(events[..k], start).now; var s := Run(events[..b], start);
      Answer(s, events[k].id) ==
        if s.now <= t + 300_000 then Some(Job(events[k].team, t, events[k].result)) else None
  {
    hide Run, RefRun, IsRun, Answer;
    RefOneMore(events, start, k);
    RunsGrow(events, start, k + 1, b);
    PollsIgnoreSweeps(events, start, k, events[k].id);
    PollsIgnoreSweeps(events, start, b, events[k].id);
  }

  /** Two polls of one id never disagree on the team, and once one has shown a result no later one
      shows anything else; no poll returns a record older than the TTL. */
  lemma AnswersAreStable(events: seq<Event>, start: Time, k: nat, b: nat, id: Id)
    requires IsRun(events, start) && k <= b <= |events|
    ensures var early, late := Answer(Run(events[..k], start), id), Answer(Run(events[..b], start), id);
      && (early.Some? && late.Some? ==> early.value.team == late.value.team)
      && (early.Some? && late.Some? && !early.value.status.Pending? ==> late == early)
      && (late.Some? ==> Run(events[..b], start).now - late.value.createdAt <= 300_000)
  {
    hide Run, RefRun, IsRun, Answer;
    RunsGrow(events, start, k, b);
    PollsIgnoreSweeps(events, start, k, id);
    PollsIgnoreSweeps(events, start, b, id);
  }

  /** What the route shows: a job of a team the user is not in answers like an unknown id. */
  function Shown(job: Option<Job>, member: Id -> bool): Option<Status> {
    if job.Some? && member(job.value.team) then Some(job.value.status) else None
  }

  /** Only members of a job's team are ever shown it, and within one TTL of its start each of them is. */
  lemma OnlyMembersSee(events: seq<Event>, start: Time, k: nat, b: nat, member: Id -> bool)
    requires IsRun(events, start) && k < b <= |events| && events[k].Started?
    ensures var s := Run(events[..b], start); var shown := Shown(Answer(s, events[k].id), member);
      && (shown.Some? ==> member(events[k].team))
      && (s.now <= Run(events[..k], start).now + 300_000 && member(events[k].team) ==> shown.Some?)
  {
    hide Run, RefRun, IsRun, Answer;
    RefOneMore(events, start, k);
    RunsGrow(events, start, k + 1, b);
    PollsIgnoreSweeps(events, start, k, events[k].id);
    PollsIgnoreSweeps(events, start, b, events[k].id);
    WrittenLater(events, start, k, b);
  }

  /** Nothing an id is written with after its start is older than the start. */
  lemma {:induction false} WrittenLater(events: seq<Event>, start: Time, k: nat, b: nat)
    requires IsRun(events, start) && k < b <= |events| && events[k].Started?
    ensures var r := RefRun(events[..b], start);
      events[k].id in r.jobs && r.jobs[events[k].id].createdAt >= RefRun(events[..k], start).now
    decreases b
  {
    hide RefRun, IsRun;
    RefOneMore(events, start, b - 1);
    RunsGrow(events, start, k, b - 1);
    if k < b - 1 { WrittenLater(events, start, k, b - 1); }
  }

  /** A member is shown exactly the result the job settled with, for five minutes, and nobody else anything. */
  lemma ResultIsShown(events: seq<Event>, start: Time, k: nat, b: nat, member: Id -> bool)
    requires IsRun(events, start) && k < b <= |events| && events[k].Settled?
    ensures var age := Run(events[..b], start).now - Run(events[..k], start).now;
      Shown(Answer(Run(events[..b], start), events[k].id), member) ==
        if member(events[k].team) && age <= 300_000 then Some(events[k].result) else None
  {
    hide Run, IsRun, Answer;
    SettledIsReturned(events, start, k, b);
  }

  /** Until it settles, a member is shown that it is pending, for five minutes from its start. */
  lemma PendingIsShown(events: seq<Event>, start: Time, k: nat, b: nat, member: Id -> bool)
    requires IsRun(events, start) && k < b <= |events| && events[k].Started?
    requires forall j :: k < j < b ==> !(events[j].Settled? && events[j].id == events[k].id)
    ensures var age := Run(events[..b], start).now - Run(events[..k], start).now;
      Shown(Answer(Run(events[..b], start), events[k].id), member) ==
        if member(events[k].team) && age <= 300_000 then Some(Pending) else None
  {
    hide Run, RefRun, IsRun, Answer;
    PollsIgnoreSweeps(events, start, k, events[k].id);
    PollsIgnoreSweeps(events, start, b, events[k].id);
    UnsettledStays(events, start, k, b);
  }

  lemma {:induction false} UnsettledStays(events: seq<Event>, start: Time, k: nat, b: nat)
    requires IsRun(events, start) && k < b <= |events| && events[k].Started?
    requires forall j :: k < j < b ==> !(events[j].Settled? && events[j].id == events[k].id)
    ensures var r := RefRun(events[..b], start);
      events[k].id in r.jobs
      && r.jobs[events[k].id] == Job(events[k].team, RefRun(events[..k], start).now, Pending)
    decreases b
  {
    hide RefRun, IsRun;
    RefOneMore(events, start, b - 1);
    if k < b - 1 { UnsettledStays(events, start, k, b - 1); }
  }
}
