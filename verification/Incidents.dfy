/** Alert rules, incidents and their event trail, with the guarded status changes. */
module Incidents {
  import opened Text

  type Id = nat

  datatype Status = Open | Acknowledged | Resolved

  datatype Action = Acknowledge | Resolve | Reopen

  datatype Condition = GreaterThan | LessThan | Equals | ChangesBy | AnomalyDetected

  datatype Rule = Rule(team: Id, enabled: bool, condition: Condition, threshold: int)

  datatype Incident = Incident(rule: Id, status: Status)

  datatype Event = Event(incident: Id, user: Id, action: Action)

  /** The tables; every incident belongs to a rule, every event to an incident, and each
      subscription names the rule it is for. */
  datatype Db = Db(rules: map<Id, Rule>, incidents: map<Id, Incident>, events: seq<Event>, subscriptions: map<Id, Id>)

  /** Which statuses an action may start from, and where it leads. */
  function AllowedFrom(a: Action): set<Status> {
    match a
    case Acknowledge => {Open}
    case Resolve => {Open, Acknowledged}
    case Reopen => {Resolved, Acknowledged}
  }

  function Target(a: Action): Status {
    match a case Acknowledge => Acknowledged case Resolve => Resolved case Reopen => Open
  }

  /** The same legality in words: an open incident can be acknowledged, an unresolved one resolved, and one that
      is not open reopened. */
  predicate LegalFrom(a: Action, s: Status) {
    match a
    case Acknowledge => s == Open
    case Resolve => s == Open || s == Acknowledged
    case Reopen => s != Open
  }

  predicate InTeam(db: Db, incident: Id, team: Id) {
    incident in db.incidents && db.incidents[incident].rule in db.rules
    && db.rules[db.incidents[incident].rule].team == team
  }

  datatype Outcome = Done | NotFound | Conflict | Failed

  /** The read: the incident's status, if it is one of the team's. */
  function ReadStatus(db: Db, incident: Id, team: Id): Option<Status> {
    if InTeam(db, incident, team) then Some(db.incidents[incident].status) else None
  }

  /** The transaction: the update repeats the status that was read, and the event is written with it.
      `fails` stands for any other database error, which rolls both back. */
  function Commit(db: Db, incident: Id, team: Id, user: Id, action: Action, current: Status, fails: bool): (Db,
                  Outcome) {
    if fails then (db, Failed)
    else if InTeam(db, incident, team) && db.incidents[incident].status == current then
      (db.(incidents := db.incidents[incident := db.incidents[incident].(status := Target(action))],
           events := db.events + [Event(incident, user, action)]), Done)
    else (db, Conflict)
  }

  function EventsWithin(events: seq<Event>, kept: map<Id, Incident>): seq<Event> {
    if events == [] then []
    else (if events[0].incident in kept then [events[0]] else []) + EventsWithin(events[1..], kept)
  }

  /** Deleting a rule cascades to its incidents, their events and its subscriptions; a rule of
      another team rolls the whole transaction back. */
  function DeleteRule(db: Db, rule: Id, team: Id): (Db, Outcome) {
    if rule in db.rules && db.rules[rule].team == team then
      var incidents := map i | i in db.incidents && db.incidents[i].rule != rule :: db.incidents[i];
      (Db(db.rules - {rule}, incidents, EventsWithin(db.events, incidents),
          map s | s in db.subscriptions && db.subscriptions[s] != rule :: db.subscriptions[s]), Done)
    else (db, NotFound)
  }

  function CreateRule(db: Db, rule: Id, r: Rule): Db {
    if rule in db.rules then db else db.(rules := db.rules[rule := r])
  }

  /** An update never moves a rule to another team. */
  function UpdateRule(db: Db, rule: Id, team: Id, r: Rule): (Db, Outcome) {
    if rule in db.rules && db.rules[rule].team == team
    then (db.(rules := db.rules[rule := r.(team := team)]), Done) else (db, NotFound)
  }

  /** The worker's insert; the foreign key needs the rule to exist still. */
  function CreateIncident(db: Db, id: Id, rule: Id): Db {
    if rule in db.rules && id !in db.incidents
    then db.(incidents := db.incidents[id := Incident(rule, Open)]) else db
  }

  /** The service object: each transaction replaces the tables at once. */
  class AlertService {
    var db: Db

    constructor (db: Db)
      ensures this.db == db
    {
      this.db := db;
    }

    method AssertIncidentInTeam(incident: Id, team: Id) returns (status: Option<Status>)
      ensures status == ReadStatus(db, incident, team)
    {
      if incident in db.incidents {
        var i := db.incidents[incident];
        if i.rule in db.rules && db.rules[i.rule].team == team { return Some(i.status); }
      }
      status := None;
    }

    /** The first half of a transition: read and check. Nothing is written. */
    method BeginTransition(incident: Id, team: Id, action: Action) returns (current: Option<Status>, refused: Outcome)
      ensures current.Some? ==> current == ReadStatus(db, incident, team) && current.value in AllowedFrom(action)
      ensures current.Some? <==>
        ReadStatus(db, incident, team).Some? && LegalFrom(action, ReadStatus(db, incident, team).value)
      ensures current.None? ==>
        if ReadStatus(db, incident, team).None? then refused == NotFound
        else refused == Conflict && ReadStatus(db, incident, team).value !in AllowedFrom(action)
    {
      var status := AssertIncidentInTeam(incident, team);
      if status.None? { return None, NotFound; }
      if status.value !in AllowedFrom(action) { return None, Conflict; }
      return status, Done;
    }

    /** The second half, after which any number of other steps may have happened. */
    method CommitTransition(incident: Id, team: Id, user: Id, action: Action, current: Status, fails: bool)
      returns (outcome: Outcome)
      modifies this
      ensures (db, outcome) == Commit(old(db), incident, team, user, action, current, fails)
    {
      if fails { return Failed; }
      var status := AssertIncidentInTeam(incident, team);
      if status != Some(current) { return Conflict; }
      var row := db.incidents[incident];
      db := db.(incidents := db.incidents[incident := row.(status := Target(action))],
                events := db.events + [Event(incident, user, action)]);
      outcome := Done;
    }

    /** A transition nobody interferes with. */
    method TransitionIncident(incident: Id, team: Id, user: Id, action: Action, fails: bool) returns (outcome: Outcome)
      modifies this
      ensures outcome == Done <==>
        && !fails && ReadStatus(old(db), incident, team).Some?
        && ReadStatus(old(db), incident, team).value in AllowedFrom(action)
      ensures outcome == Done <==>
        && !fails && incident in old(db).incidents && old(db).incidents[incident].rule in old(db).rules
        && old(db).rules[old(db).incidents[incident].rule].team == team
        && LegalFrom(action, old(db).incidents[incident].status)
      ensures outcome != Done ==> db == old(db)
      ensures outcome == Done ==> ReadStatus(db, incident, team) == Some(Target(action))
      ensures outcome == Done ==> ReadStatus(db, incident, team) == Some(LastStatus([action]))
      ensures outcome == Done ==> db.events == old(db).events + [Event(incident, user, action)]
    {
      var current, refused := BeginTransition(incident, team, action);
      if current.None? { return refused; }
      outcome := CommitTransition(incident, team, user, action, current.value, fails);
    }

    method RemoveRule(rule: Id, team: Id) returns (outcome: Outcome)
      modifies this
      ensures (db, outcome) == DeleteRule(old(db), rule, team)
      ensures outcome == Done <==> rule in old(db).rules && old(db).rules[rule].team == team
      ensures outcome == Done ==> db.rules == old(db).rules - {rule}
      ensures outcome == Done ==> forall i ::
        i in db.incidents <==> i in old(db).incidents && old(db).incidents[i].rule != rule
      ensures outcome == Done ==> forall s ::
        s in db.subscriptions <==> s in old(db).subscriptions && old(db).subscriptions[s] != rule
      ensures outcome != Done ==> db == old(db)
    {
      if rule !in db.rules || db.rules[rule].team != team { return NotFound; }
      var kept := map i | i in db.incidents && db.incidents[i].rule != rule :: db.incidents[i];
      db := Db(db.rules - {rule}, kept, EventsWithin(db.events, kept),
               map s | s in db.subscriptions && db.subscriptions[s] != rule :: db.subscriptions[s]);
      outcome := Done;
    }
  }

  // ---- the trail

  /** The actions recorded for one incident, in order. */
  function Trail(events: seq<Event>, incident: Id): seq<Action> {
    if events == [] then []
    else
      var e := events[|events| - 1];
      Trail(events[..|events| - 1], incident) + if e.incident == incident then [e.action] else []
  }

  /** The status a trail leads to from OPEN; none when some action was not legal where it was taken. */
  function Replay(trail: seq<Action>): Option<Status> {
    if trail == [] then Some(Open)
    else
      var before := Replay(trail[..|trail| - 1]);
      var a := trail[|trail| - 1];
      if before.Some? && before.value in AllowedFrom(a) then Some(Target(a)) else None
  }

  /** Every incident's status is the fold of its trail, every action in it legal, and no event is
      left without its incident. */
  ghost predicate Consistent(db: Db) {
    && (forall i <- db.incidents :: Replay(Trail(db.events, i)) == Some(db.incidents[i].status))
    && (forall e <- db.events :: e.incident in db.incidents)
  }

  lemma TrailPush(events: seq<Event>, e: Event, i: Id)
    ensures Trail(events + [e], i) == Trail(events, i) + if e.incident == i then [e.action] else []
  {
    assert (events + [e])[..|events|] == events;
  }

  lemma ReplayPush(trail: seq<Action>, a: Action)
    ensures Replay(trail + [a]) ==
      if Replay(trail).Some? && Replay(trail).value in AllowedFrom(a) then Some(Target(a)) else None
  {
    assert (trail + [a])[..|trail|] == trail;
  }

  /** Which trails there can be, said of the actions alone: an acknowledgement comes first or right after a
      reopening, nothing but a reopening follows a resolution, and a reopening comes after one of the others. */
  predicate Orderly(trail: seq<Action>) { forall k :: 0 <= k < |trail| ==> OrderlyAt(trail, k) }

  predicate OrderlyAt(trail: seq<Action>, k: nat)
    requires k < |trail|
  {
    match trail[k]
    case Acknowledge => k == 0 || trail[k - 1] == Reopen
    case Resolve => k == 0 || trail[k - 1] != Resolve
    case Reopen => k > 0 && trail[k - 1] != Reopen
  }

  /** Open at first and after a reopening, else as the last action says. */
  function LastStatus(trail: seq<Action>): Status {
    if trail == [] || trail[|trail| - 1] == Reopen then Open
    else if trail[|trail| - 1] == Acknowledge then Acknowledged else Resolved
  }

  /** A trail is legal at every action exactly when it is orderly, and then its last action decides the status. */
  lemma {:induction false} ReplayIff(trail: seq<Action>)
    ensures Replay(trail) == if Orderly(trail) then Some(LastStatus(trail)) else None
    decreases |trail|
  {
    if trail != [] {
      var n := |trail| - 1;
      var front := trail[..n];
      ReplayIff(front);
      OrderlyFront(trail);
    }
  }

  lemma OrderlyFront(trail: seq<Action>)
    requires trail != []
    ensures var n := |trail| - 1;
      Orderly(trail) <==> Orderly(trail[..n]) && LegalFrom(trail[n], LastStatus(trail[..n]))
  {
    var n := |trail| - 1;
    var front := trail[..n];
    forall k: nat | k < n ensures OrderlyAt(front, k) == OrderlyAt(trail, k) { }
    assert Orderly(trail) <==> Orderly(front) && OrderlyAt(trail, n);
  }

  lemma {:induction false} NoEventsNoTrail(events: seq<Event>, i: Id)
    requires forall e <- events :: e.incident != i
    ensures Trail(events, i) == []
  {
    if events != [] {
      assert events[|events| - 1] in events;
      NoEventsNoTrail(events[..|events| - 1], i);
    }
  }

  lemma CommitConsistent(db: Db, incident: Id, team: Id, user: Id, action: Action, current: Status, fails: bool)
    requires Consistent(db) && current in AllowedFrom(action)
    ensures Consistent(Commit(db, incident, team, user, action, current, fails).0)
  {
    var (db', outcome) := Commit(db, incident, team, user, action, current, fails);
    if outcome == Done {
      forall i | i in db'.incidents ensures Replay(Trail(db'.events, i)) == Some(db'.incidents[i].status) {
        TrailPush(db.events, Event(incident, user, action), i);
        ReplayPush(Trail(db.events, incident), action);
        assert Trail(db.events, i) + [] == Trail(db.events, i);
      }
    }
  }

  lemma CreateConsistent(db: Db, id: Id, rule: Id)
    requires Consistent(db)
    ensures Consistent(CreateIncident(db, id, rule))
  {
    if id !in db.incidents { NoEventsNoTrail(db.events, id); }
  }

  lemma {:induction false} WithinPush(events: seq<Event>, e: Event, kept: map<Id, Incident>)
    ensures EventsWithin(events + [e], kept) == EventsWithin(events, kept) + if e.incident in kept then [e] else []
    decreases |events|
  {
    if events != [] {
      assert (events + [e])[1..] == events[1..] + [e];
      WithinPush(events[1..], e, kept);
    } else {
      assert (events + [e])[1..] == [];
    }
  }

  lemma {:induction false} WithinTrail(events: seq<Event>, kept: map<Id, Incident>, i: Id)
    requires i in kept
    ensures Trail(EventsWithin(events, kept), i) == Trail(events, i)
    ensures forall e <- EventsWithin(events, kept) :: e.incident in kept
    decreases |events|
  {
    if events != [] {
      var front, last := events[..|events| - 1], events[|events| - 1];
      assert events == front + [last];
      WithinPush(front, last, kept);
      WithinTrail(front, kept, i);
      if last.incident in kept {
        TrailPush(EventsWithin(front, kept), last, i);
      } else {
        assert EventsWithin(events, kept) == EventsWithin(front, kept);
        assert Trail(front, i) + [] == Trail(front, i);
      }
    }
  }

  lemma {:induction false} WithinKept(events: seq<Event>, kept: map<Id, Incident>)
    ensures forall e <- EventsWithin(events, kept) :: e.incident in kept
    decreases |events|
  {
    if events != [] { WithinKept(events[1..], kept); }
  }

  lemma DeleteConsistent(db: Db, rule: Id, team: Id)
    requires Consistent(db)
    ensures Consistent(DeleteRule(db, rule, team).0)
  {
    var (db', outcome) := DeleteRule(db, rule, team);
    if outcome == Done {
      WithinKept(db.events, db'.incidents);
      forall i | i in db'.incidents ensures Replay(Trail(db'.events, i)) == Some(db'.incidents[i].status) {
        WithinTrail(db.events, db'.incidents, i);
      }
    }
  }

  // ---- what an action leaves alone

  /** An action that does not succeed writes nothing; one that does touches its own incident only,
      and that incident is the team's. */
  lemma CommitIsConfined(db: Db, incident: Id, team: Id, user: Id, action: Action, current: Status, fails: bool)
    ensures var (db', outcome) := Commit(db, incident, team, user, action, current, fails);
      && (outcome != Done ==> db' == db)
      && (outcome == Done ==> InTeam(db, incident, team))
      && db'.rules == db.rules && db'.incidents.Keys == db.incidents.Keys
      && (forall i :: i in db.incidents && !InTeam(db, i, team) ==>
            db'.incidents[i] == db.incidents[i] && Trail(db'.events, i) == Trail(db.events, i))
      && (forall i :: i in db.incidents && i != incident ==>
            db'.incidents[i] == db.incidents[i] && Trail(db'.events, i) == Trail(db.events, i))
  {
    var (db', outcome) := Commit(db, incident, team, user, action, current, fails);
    if outcome == Done {
      forall i | i in db.incidents && i != incident ensures Trail(db'.events, i) == Trail(db.events, i) {
        TrailPush(db.events, Event(incident, user, action), i);
      }
    }
  }

  /** Of two actions that both read the same status, the second to commit is refused and loses
      nothing of the first one's effect. */
  lemma LaterCommitLoses(db: Db, incident: Id, team: Id, user: Id, user': Id, a: Action, b: Action, current: Status)
    requires current in AllowedFrom(a)
    requires Commit(db, incident, team, user, a, current, false).1 == Done
    ensures var db1 := Commit(db, incident, team, user, a, current, false).0;
      Commit(db1, incident, team, user', b, current, false) == (db1, Conflict)
  {
  }

  /** A deleted rule takes exactly its own incidents, their trails and its subscriptions with it;
      a rule of another team takes nothing. */
  lemma DeleteIsConfined(db: Db, rule: Id, team: Id)
    requires Consistent(db)
    ensures var (db', outcome) := DeleteRule(db, rule, team);
      && (outcome != Done ==> db' == db)
      && (outcome == Done ==> rule in db.rules && db.rules[rule].team == team && rule !in db'.rules)
      && (outcome == Done ==> forall i :: i in db'.incidents <==> i in db.incidents && db.incidents[i].rule != rule)
      && (outcome == Done ==> forall e <- db'.events ::
            e.incident in db.incidents && db.incidents[e.incident].rule != rule)
      && (outcome == Done ==> forall s ::
            s in db'.subscriptions <==> s in db.subscriptions && db.subscriptions[s] != rule)
      && (forall i :: i in db'.incidents ==>
            db'.incidents[i] == db.incidents[i] && Trail(db'.events, i) == Trail(db.events, i))
  {
    var (db', outcome) := DeleteRule(db, rule, team);
    if outcome == Done {
      WithinKept(db.events, db'.incidents);
      forall i | i in db'.incidents ensures Trail(db'.events, i) == Trail(db.events, i) {
        WithinTrail(db.events, db'.incidents, i);
      }
    }
  }
}
