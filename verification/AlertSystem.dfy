/** Every interleaving of one worker and any number of users, each step atomic. */
module AlertSystem {
  import opened Text
  import opened Incidents
  import opened AlertWorker

  /** A user action between its read and its transaction. */
  datatype Pending = Pending(incident: Id, team: Id, user: Id, action: Action, current: Status)

  /** Where the worker is: at rule `k` of the loaded list, or past the duplicate check of that rule. */
  datatype Phase = Idle | Loading | AtRule(k: nat) | Deciding(k: nat)

  /** `tried` lists the rules taken up in the current or last pass; `reopens` and `passes` count
      successful reopens by rule and completed passes. */
  datatype Sys = Sys(db: Db, pending: map<Id, Pending>, running: bool, phase: Phase, loaded: seq<(Id, Rule)>,
                     tried: seq<Id>, reopens: map<Id, nat>, passes: nat)

  datatype Step =
    | Read(session: Id, incident: Id, team: Id, user: Id, action: Action)
    | Write(session: Id, fails: bool)
    | AddRule(rule: Id, r: Rule)
    | EditRule(rule: Id, team: Id, r: Rule)
    | DropRule(rule: Id, team: Id)
    | Tick
    | Load(rules: Option<seq<(Id, Rule)>>)
    | Check(o: Outside)
    | Decide(o: Outside)
    | EndPass

  function Count(m: map<Id, nat>, r: Id): nat { if r in m then m[r] else 0 }

  /** What the worker reads when it loads: each enabled rule once. */
  predicate IsLoadOf(rules: seq<(Id, Rule)>, db: Db) {
    && (forall i :: 0 <= i < |rules| ==>
          rules[i].0 in db.rules && db.rules[rules[i].0] == rules[i].1 && rules[i].1.enabled)
    && (forall i, j :: 0 <= i < j < |rules| ==> rules[i].0 != rules[j].0)
    && (forall r <- db.rules :: db.rules[r].enabled ==> exists i :: 0 <= i < |rules| && rules[i].0 == r)
  }

  /** One atomic step; a step that is not possible in the state does nothing. */
  function Apply(s: Sys, st: Step): Sys {
    match st
    case Read(session, incident, team, user, action) =>
      var status := ReadStatus(s.db, incident, team);
      if status.Some? && status.value in AllowedFrom(action)
      then s.(pending := s.pending[session := Pending(incident, team, user, action, status.value)])
      else s.(pending := s.pending - {session})
    case Write(session, fails) =>
      if session !in s.pending then s
      else
        var p := s.pending[session];
        var (db, outcome) := Commit(s.db, p.incident, p.team, p.user, p.action, p.current, fails);
        var t := s.(db := db, pending := s.pending - {session});
        if outcome == Done && p.action == Reopen then
          var rule := s.db.incidents[p.incident].rule;
          t.(reopens := s.reopens[rule := Count(s.reopens, rule) + 1])
        else t
    case AddRule(rule, r) => s.(db := CreateRule(s.db, rule, r))
    case EditRule(rule, team, r) => s.(db := UpdateRule(s.db, rule, team, r).0)
    case DropRule(rule, team) => s.(db := DeleteRule(s.db, rule, team).0)
    case Tick => if s.running then s else s.(running := true, phase := Loading, tried := [], loaded := [])
    case Load(rules) =>
      if s.phase != Loading then s
      else if rules.None? then s.(running := false, phase := Idle)
      else if IsLoadOf(rules.value, s.db) then s.(phase := AtRule(0), loaded := rules.value)
      else s
    case Check(o) =>
      if !s.phase.AtRule? || s.phase.k >= |s.loaded| then s
      else
        var (rule, r) := s.loaded[s.phase.k];
        var t := s.(tried := s.tried + [rule]);
        if Skipped(r, o) || HasOpen(s.db, rule) then t.(phase := AtRule(s.phase.k + 1))
        else t.(phase := Deciding(s.phase.k))
    case Decide(o) =>
      if !s.phase.Deciding? || s.phase.k >= |s.loaded| then s
      else
        var (rule, r) := s.loaded[s.phase.k];
        var t := s.(phase := AtRule(s.phase.k + 1));
        if Triggered(r, o) == Some(true) then t.(db := CreateIncident(s.db, o.newId, rule)) else t
    case EndPass =>
      if s.phase.AtRule? && s.phase.k == |s.loaded|
      then s.(running := false, phase := Idle, passes := s.passes + 1) else s
  }

  function Run(s: Sys, steps: seq<Step>): Sys {
    if steps == [] then s else Apply(Run(s, steps[..|steps| - 1]), steps[|steps| - 1])
  }

  /** An empty incident table, nobody acting, the worker idle. */
  ghost predicate Initial(s: Sys) {
    s.db.incidents == map[] && s.db.events == [] && s.pending == map[] && !s.running && s.phase == Idle
    && s.loaded == [] && s.tried == [] && s.reopens == map[] && s.passes == 0
  }

  // ---- the invariants

  ghost function OpenOf(db: Db, rule: Id): set<Id> {
    set i | i in db.incidents && db.incidents[i].rule == rule && db.incidents[i].status == Open
  }

  predicate PendingLegal(s: Sys) { forall p <- s.pending :: s.pending[p].current in AllowedFrom(s.pending[p].action) }

  predicate DecidingOn(s: Sys, rule: Id) {
    s.phase.Deciding? && s.phase.k < |s.loaded| && s.loaded[s.phase.k].0 == rule
  }

  /** At most one open incident beyond the reopens; none beyond them while the worker, past its
      duplicate check, may still create one. */
  ghost predicate OpenBound(s: Sys, rule: Id) {
    |OpenOf(s.db, rule)| <= Count(s.reopens, rule) + if DecidingOn(s, rule) then 0 else 1
  }

  /** The flag tells whether a pass is under way, and the rules tried so far are the loaded ones in
      their order. */
  ghost predicate WorkerInv(s: Sys) {
    && (s.running <==> s.phase != Idle)
    && (forall i, j :: 0 <= i < j < |s.loaded| ==> s.loaded[i].0 != s.loaded[j].0)
    && match s.phase
       case Idle => true
       case Loading => s.tried == [] && s.loaded == []
       case AtRule(k) => k <= |s.loaded| && |s.tried| == k && forall i :: 0 <= i < k ==> s.tried[i] == s.loaded[i].0
       case Deciding(k) =>
          k < |s.loaded| && |s.tried| == k + 1 && forall i :: 0 <= i < k + 1 ==> s.tried[i] == s.loaded[i].0
  }

  ghost predicate Inv(s: Sys) {
    Consistent(s.db) && PendingLegal(s) && WorkerInv(s) && forall r :: OpenBound(s, r)
  }

  lemma StepConsistent(s: Sys, st: Step)
    requires Consistent(s.db) && PendingLegal(s)
    ensures Consistent(Apply(s, st).db) && PendingLegal(Apply(s, st))
  {
    hide Consistent;
    match st
    case Write(session, fails) =>
      if session in s.pending {
        var p := s.pending[session];
        CommitConsistent(s.db, p.incident, p.team, p.user, p.action, p.current, fails);
      }
    case DropRule(rule, team) => DeleteConsistent(s.db, rule, team);
    case Decide(o) =>
      if s.phase.Deciding? && s.phase.k < |s.loaded| { CreateConsistent(s.db, o.newId, s.loaded[s.phase.k].0); }
    case AddRule(rule, r) => RulesDoNotMatter(s.db, CreateRule(s.db, rule, r));
    case EditRule(rule, team, r) => RulesDoNotMatter(s.db, UpdateRule(s.db, rule, team, r).0);
    case _ =>
  }

  lemma RulesDoNotMatter(db: Db, db': Db)
    requires Consistent(db) && db'.incidents == db.incidents && db'.events == db.events
    ensures Consistent(db')
  {
  }

  lemma StepWorker(s: Sys, st: Step)
    requires WorkerInv(s)
    ensures WorkerInv(Apply(s, st))
  {
    hide Commit, DeleteRule, CreateIncident, Triggered, Skipped, HasOpen, ReadStatus;
  }

  lemma SubsetSize(a: set<Id>, b: set<Id>)
    requires a <= b
    ensures |a| <= |b|
  {
    assert b == a + (b - a);
  }

  lemma OpenGrowsBy(db: Db, db': Db, rule: Id, i: Id)
    requires OpenOf(db', rule) <= OpenOf(db, rule) + {i}
    ensures |OpenOf(db', rule)| <= |OpenOf(db, rule)| + 1
  {
    SubsetSize(OpenOf(db', rule), OpenOf(db, rule) + {i});
  }

  /** Only a reopen, of an incident of the rule, can add to its open incidents. */
  lemma CommitOpen(db: Db, p: Pending, fails: bool, rule: Id)
    requires p.current in AllowedFrom(p.action)
    ensures var (db', outcome) := Commit(db, p.incident, p.team, p.user, p.action, p.current, fails);
      |OpenOf(db', rule)| <= |OpenOf(db, rule)|
        + if outcome == Done && p.action == Reopen && db.incidents[p.incident].rule == rule then 1 else 0
  {
    var (db', outcome) := Commit(db, p.incident, p.team, p.user, p.action, p.current, fails);
    if outcome == Done {
      if p.action == Reopen && db.incidents[p.incident].rule == rule {
        assert OpenOf(db', rule) <= OpenOf(db, rule) + {p.incident};
        OpenGrowsBy(db, db', rule, p.incident);
      } else {
        assert OpenOf(db', rule) <= OpenOf(db, rule);
        SubsetSize(OpenOf(db', rule), OpenOf(db, rule));
      }
    }
  }

  lemma CreateOpen(db: Db, id: Id, created: Id, rule: Id)
    ensures |OpenOf(CreateIncident(db, id, created), rule)| <= |OpenOf(db, rule)| + if created == rule then 1 else 0
  {
    var db' := CreateIncident(db, id, created);
    if created == rule {
      assert OpenOf(db', rule) <= OpenOf(db, rule) + {id};
      OpenGrowsBy(db, db', rule, id);
    } else {
      assert OpenOf(db', rule) == OpenOf(db, rule);
    }
  }

  lemma WriteOpen(s: Sys, session: Id, fails: bool, rule: Id)
    requires PendingLegal(s) && OpenBound(s, rule)
    ensures OpenBound(Apply(s, Write(session, fails)), rule)
  {
    hide OpenOf, Commit;
    if session in s.pending { CommitOpen(s.db, s.pending[session], fails, rule); }
  }

  lemma DropOpen(s: Sys, rule: Id, team: Id, r: Id)
    requires OpenBound(s, r)
    ensures OpenBound(Apply(s, DropRule(rule, team)), r)
  {
    hide EventsWithin;
    var db := DeleteRule(s.db, rule, team).0;
    assert OpenOf(db, r) <= OpenOf(s.db, r);
    SubsetSize(OpenOf(db, r), OpenOf(s.db, r));
  }

  lemma CheckOpen(s: Sys, o: Outside, r: Id)
    requires OpenBound(s, r)
    ensures OpenBound(Apply(s, Check(o)), r)
  {
    hide Skipped;
    if s.phase.AtRule? && s.phase.k < |s.loaded| {
      var rule := s.loaded[s.phase.k].0;
      if !HasOpen(s.db, rule) { assert OpenOf(s.db, rule) == {}; }
    }
  }

  lemma DecideOpen(s: Sys, o: Outside, r: Id)
    requires OpenBound(s, r)
    ensures OpenBound(Apply(s, Decide(o)), r)
  {
    hide Triggered, OpenOf, CreateIncident;
    if s.phase.Deciding? && s.phase.k < |s.loaded| { CreateOpen(s.db, o.newId, s.loaded[s.phase.k].0, r); }
  }

  lemma StepOpen(s: Sys, st: Step, r: Id)
    requires PendingLegal(s) && WorkerInv(s) && OpenBound(s, r)
    ensures OpenBound(Apply(s, st), r)
  {
    match st
    case Write(session, fails) => WriteOpen(s, session, fails, r);
    case DropRule(rule, team) => DropOpen(s, rule, team, r);
    case Check(o) => CheckOpen(s, o, r);
    case Decide(o) => DecideOpen(s, o, r);
    case AddRule(rule, x) => assert OpenOf(CreateRule(s.db, rule, x), r) == OpenOf(s.db, r);
    case EditRule(rule, team, x) => assert OpenOf(UpdateRule(s.db, rule, team, x).0, r) == OpenOf(s.db, r);
    case _ =>
  }

  lemma StepInv(s: Sys, st: Step)
    requires Inv(s)
    ensures Inv(Apply(s, st))
  {
    hide Consistent, PendingLegal, WorkerInv, OpenBound, Apply;
    StepConsistent(s, st);
    StepWorker(s, st);
    forall r ensures OpenBound(Apply(s, st), r) { StepOpen(s, st, r); }
  }

  /** Every interleaving keeps the invariants. */
  lemma {:induction false} RunInv(s: Sys, steps: seq<Step>)
    requires Initial(s)
    ensures Inv(Run(s, steps))
    decreases |steps|
  {
    if steps == [] {
      forall r ensures OpenBound(s, r) { assert OpenOf(s.db, r) == {}; }
    } else {
      RunInv(s, steps[..|steps| - 1]);
      StepInv(Run(s, steps[..|steps| - 1]), steps[|steps| - 1]);
    }
  }

  // ---- what follows for every run

  /** After any run each incident's status is the fold of its trail, legal at every event. */
  lemma StatusIsTrail(s: Sys, steps: seq<Step>, i: Id)
    requires Initial(s) && i in Run(s, steps).db.incidents
    ensures Replay(Trail(Run(s, steps).db.events, i)) == Some(Run(s, steps).db.incidents[i].status)
  {
    hide Run, Trail, Replay;
    RunInv(s, steps);
  }

  /** After any run every trail is orderly, and its last action tells the incident's status. */
  lemma TrailsAreOrderly(s: Sys, steps: seq<Step>, i: Id)
    requires Initial(s) && i in Run(s, steps).db.incidents
    ensures var trail := Trail(Run(s, steps).db.events, i);
      Orderly(trail) && Run(s, steps).db.incidents[i].status == LastStatus(trail)
  {
    hide Run, Trail, Replay, Orderly;
    StatusIsTrail(s, steps, i);
    ReplayIff(Trail(Run(s, steps).db.events, i));
  }

  /** After any run a rule has at most one open incident more than it had successful reopens. */
  lemma OpenIncidentsBounded(s: Sys, steps: seq<Step>, r: Id)
    requires Initial(s)
    ensures |OpenOf(Run(s, steps).db, r)| <= 1 + Count(Run(s, steps).reopens, r)
  {
    hide Run, OpenOf;
    RunInv(s, steps);
    assert OpenBound(Run(s, steps), r);
  }

  predicate Reopens(st: Step) { st.Read? && st.action == Reopen }

  ghost predicate NobodyReopens(s: Sys) {
    s.reopens == map[] && forall p <- s.pending :: s.pending[p].action != Reopen
  }

  lemma {:induction false} WithoutReopens(s: Sys, steps: seq<Step>)
    requires Initial(s) && forall st <- steps :: !Reopens(st)
    ensures NobodyReopens(Run(s, steps))
    decreases |steps|
  {
    hide Apply;
    if steps != [] {
      var last := steps[|steps| - 1];
      assert last in steps && forall st <- steps[..|steps| - 1] :: st in steps;
      WithoutReopens(s, steps[..|steps| - 1]);
      StepWithoutReopen(Run(s, steps[..|steps| - 1]), last);
    }
  }

  lemma StepWithoutReopen(s: Sys, st: Step)
    requires NobodyReopens(s) && !Reopens(st)
    ensures NobodyReopens(Apply(s, st))
  {
    hide Commit, DeleteRule, CreateRule, UpdateRule, CreateIncident, Triggered, Skipped, HasOpen, IsLoadOf;
    match st
    case Read(_, _, _, _, _) =>
    case Write(_, _) =>
    case _ =>
  }

  /** A run in which nobody reopens never has two open incidents of one rule. */
  lemma NoDuplicateIncidents(s: Sys, steps: seq<Step>, i: Id, j: Id)
    requires Initial(s) && forall st <- steps :: !Reopens(st)
    requires i in Run(s, steps).db.incidents && j in Run(s, steps).db.incidents
    requires Run(s, steps).db.incidents[i].status == Open && Run(s, steps).db.incidents[j].status == Open
    requires Run(s, steps).db.incidents[i].rule == Run(s, steps).db.incidents[j].rule
    ensures i == j
  {
    hide Run;
    var db := Run(s, steps).db;
    var r := db.incidents[i].rule;
    WithoutReopens(s, steps);
    OpenIncidentsBounded(s, steps, r);
    assert {i, j} <= OpenOf(db, r);
    if i != j {
      assert |{i, j}| == 2;
      SubsetSize({i, j}, OpenOf(db, r));
    }
  }

  // ---- passes

  /** When a pass ends every loaded rule has been tried exactly once, in the order loaded. */
  lemma PassTriesEachOnce(s: Sys, steps: seq<Step>)
    requires Initial(s)
    ensures var t := Run(s, steps); t.passes < Apply(t, EndPass).passes ==>
      && |t.tried| == |t.loaded|
      && (forall i :: 0 <= i < |t.loaded| ==> t.tried[i] == t.loaded[i].0)
      && (forall i, j :: 0 <= i < j < |t.tried| ==> t.tried[i] != t.tried[j])
  {
    hide Run, Consistent, OpenBound;
    RunInv(s, steps);
  }

  /** A tick during a pass starts nothing. */
  lemma PassesDoNotOverlap(s: Sys, steps: seq<Step>)
    requires Initial(s)
    ensures var t := Run(s, steps); t.phase != Idle ==> Apply(t, Tick) == t
  {
    hide Run, Consistent, OpenBound;
    RunInv(s, steps);
  }

  /** The worker's own next step in a pass; the choices say what fails or is skipped. */
  function WorkerStep(s: Sys, loads: Option<seq<(Id, Rule)>>, o: Outside): Step {
    match s.phase
    case Idle => EndPass
    case Loading => Load(loads)
    case AtRule(k) => if k < |s.loaded| then Check(o) else EndPass
    case Deciding(_) => Decide(o)
  }

  predicate WorkerMove(st: Step) { st.Tick? || st.Load? || st.Check? || st.Decide? || st.EndPass? }

  /** How many worker steps a loaded pass still takes at most. */
  function StepsLeft(s: Sys): nat {
    match s.phase
    case Idle => 0
    case Loading => 1
    case AtRule(k) => if k <= |s.loaded| then 2 * (|s.loaded| - k) + 1 else 0
    case Deciding(k) => if k < |s.loaded| then 2 * (|s.loaded| - k) else 0
  }

  /** Whatever is skipped or fails, each worker step brings a loaded pass nearer to its end, no
      user's step takes it back, a failed load ends the pass at once, and the flag is then released. */
  lemma PassEnds(s: Sys, steps: seq<Step>, loads: Option<seq<(Id, Rule)>>, o: Outside, st: Step)
    requires Initial(s)
    ensures var t := Run(s, steps);
      var u := Apply(t, WorkerStep(t, loads, o));
      && (t.phase.AtRule? || t.phase.Deciding? ==> StepsLeft(u) < StepsLeft(t))
      && (t.phase == Loading && loads.None? ==> u.phase == Idle)
      && (t.phase == Loading && loads.Some? && IsLoadOf(loads.value, t.db) ==> u.phase == AtRule(0))
      && (!WorkerMove(st) ==> StepsLeft(Apply(t, st)) == StepsLeft(t) && Apply(t, st).phase == t.phase)
      && (t.running <==> StepsLeft(t) > 0)
  {
    hide Run, Consistent, OpenBound, IsLoadOf, Skipped, HasOpen, Triggered, Commit, DeleteRule, CreateIncident;
    RunInv(s, steps);
  }

  // ---- teams

  /** What a step of a user does to an incident of another team: nothing. */
  lemma OtherTeamsUntouched(s: Sys, session: Id, fails: bool, i: Id)
    requires session in s.pending && i in s.db.incidents && !InTeam(s.db, i, s.pending[session].team)
    ensures var t := Apply(s, Write(session, fails));
      i in t.db.incidents && t.db.incidents[i] == s.db.incidents[i] && Trail(t.db.events, i) == Trail(s.db.events, i)
  {
    hide Trail;
    var p := s.pending[session];
    CommitIsConfined(s.db, p.incident, p.team, p.user, p.action, p.current, fails);
  }

  /** The two steps taken on a rule with nothing between them are the worker's uninterrupted evaluation. */
  lemma CheckDecideIsEvaluation(s: Sys, o: Outside)
    requires s.phase.AtRule? && s.phase.k < |s.loaded|
    ensures var (rule, r) := s.loaded[s.phase.k];
      var t := Apply(s, Check(o));
      (if t.phase.Deciding? then Apply(t, Decide(o)).db else t.db) == EvaluateRule(s.db, rule, r, o)
  {
    hide Triggered, Skipped, HasOpen;
  }

  /** No step moves a rule to another team; a rule changes only by an edit in its own team's name, to what the edit
      says, and goes only when that team drops it. */
  lemma RulesKeepTeams(s: Sys, st: Step, rule: Id)
    requires rule in s.db.rules
    ensures var t := Apply(s, st); var team := s.db.rules[rule].team;
      && (rule !in t.db.rules <==> st == DropRule(rule, team))
      && (st.EditRule? && st.rule == rule && st.team == team ==>
            rule in t.db.rules
            && t.db.rules[rule] == Rule(team, st.r.enabled, st.r.condition, st.r.threshold))
      && (st != DropRule(rule, team) && !(st.EditRule? && st.rule == rule && st.team == team) ==>
            rule in t.db.rules && t.db.rules[rule] == s.db.rules[rule])
  {
    hide Triggered, Skipped, HasOpen, IsLoadOf, ReadStatus, EventsWithin, InTeam;
  }

  /** Over every run: a rule that its team does not drop stays, and stays in that team. */
  lemma {:induction false} RulesStay(s: Sys, steps: seq<Step>, rule: Id)
    requires rule in s.db.rules && forall st <- steps :: st != DropRule(rule, s.db.rules[rule].team)
    ensures rule in Run(s, steps).db.rules && Run(s, steps).db.rules[rule].team == s.db.rules[rule].team
    decreases |steps|
  {
    hide Apply;
    if steps != [] {
      var front, last := steps[..|steps| - 1], steps[|steps| - 1];
      assert last in steps && forall st <- front :: st in steps;
      RulesStay(s, front, rule);
      RulesKeepTeams(Run(s, front), last, rule);
    }
  }

  /** A new rule is stored as given, under an id no rule has. */
  lemma NewRules(s: Sys, rule: Id, r: Rule)
    ensures rule !in s.db.rules ==> Apply(s, AddRule(rule, r)) == s.(db := s.db.(rules := s.db.rules[rule := r]))
    ensures rule in s.db.rules ==> Apply(s, AddRule(rule, r)) == s
  {
  }

  /** What a pass works through: each enabled rule once, as it is when the pass loads, and no other. */
  lemma LoadIs(s: Sys, rules: seq<(Id, Rule)>, r: Id)
    requires s.phase == Loading && s.loaded == [] && Apply(s, Load(Some(rules))).phase != Loading
    ensures var t := Apply(s, Load(Some(rules)));
      && t.phase == AtRule(0) && t.loaded == rules
      && ((exists i :: 0 <= i < |rules| && rules[i].0 == r) <==> r in s.db.rules && s.db.rules[r].enabled)
      && (forall i :: 0 <= i < |rules| && rules[i].0 == r ==> r in s.db.rules && rules[i].1 == s.db.rules[r])
      && (forall i, j :: 0 <= i < |rules| && 0 <= j < |rules| && rules[i].0 == rules[j].0 ==> i == j)
  {
    assert IsLoadOf(rules, s.db);
    if i :| 0 <= i < |rules| && rules[i].0 == r { assert s.db.rules[rules[i].0] == rules[i].1; }
  }

  /** A transition is attempted once: after its transaction there is nothing left to commit. */
  lemma WriteOnce(s: Sys, session: Id, fails: bool, again: bool)
    ensures var t := Apply(s, Write(session, fails));
      session !in t.pending && Apply(t, Write(session, again)) == t
  {
    hide Commit;
  }
}
