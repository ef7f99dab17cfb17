/** The single-flight evaluation worker, alone and interleaved with any number of users. */
module AlertWorker {
  import opened Text
  import opened Incidents

  // ---- one rule

  /** What evaluating a rule meets outside: is it muted or in a maintenance window, the log counts
      of the window and of the one before (none when the query fails), and the id of a new row. */
  datatype Outside = Outside(muted: bool, maintenance: bool, current: Option<nat>, previous: Option<nat>, newId: Id)

  function Abs(x: int): nat { if x < 0 then -x else x }

  /** Whether the condition holds; none when a count it needs cannot be had. */
  function Triggered(r: Rule, o: Outside): Option<bool> {
    if o.current.None? then None
    else
      match r.condition
      case GreaterThan => Some(o.current.value > r.threshold)
      case LessThan => Some(o.current.value < r.threshold)
      case Equals => Some(o.current.value == r.threshold)
      case ChangesBy => if o.previous.None? then None else Some(Abs(o.current.value - o.previous.value) >= r.threshold)
      case AnomalyDetected => Some(false)
  }

  predicate Skipped(r: Rule, o: Outside) { r.condition == AnomalyDetected || o.muted || o.maintenance }

  predicate HasOpen(db: Db, rule: Id) {
    exists i <- db.incidents :: db.incidents[i].rule == rule && db.incidents[i].status == Open
  }

  /** The tables after one uninterrupted evaluation of a loaded rule. */
  function EvaluateRule(db: Db, rule: Id, r: Rule, o: Outside): Db {
    if Skipped(r, o) || HasOpen(db, rule) then db
    else if Triggered(r, o) == Some(true) then CreateIncident(db, o.newId, rule)
    else db
  }

  /** The condition of a rule in words, on the counts it needs. */
  predicate Meets(r: Rule, o: Outside) {
    o.current.Some? &&
    match r.condition
    case GreaterThan => o.current.value > r.threshold
    case LessThan => o.current.value < r.threshold
    case Equals => o.current.value == r.threshold
    case ChangesBy =>
      && o.previous.Some?
      && (o.current.value - o.previous.value >= r.threshold || o.previous.value - o.current.value >= r.threshold)
    case AnomalyDetected => false
  }

  /** Exactly when an evaluation creates an incident, and which: the rule is not muted, its team not in a
      maintenance window, it has no open incident, exists still and meets its condition. */
  lemma EvaluationCreates(db: Db, rule: Id, r: Rule, o: Outside)
    ensures EvaluateRule(db, rule, r, o) ==
      if !o.muted && !o.maintenance && Meets(r, o) && rule in db.rules && o.newId !in db.incidents
         && forall i <- db.incidents :: db.incidents[i].rule == rule ==> db.incidents[i].status != Open
      then Db(db.rules, db.incidents[o.newId := Incident(rule, Open)], db.events, db.subscriptions)
      else db
  {
  }

  // ---- a whole pass

  function EvaluateAll(db: Db, loaded: seq<(Id, Rule)>, outside: seq<Outside>, n: nat): Db
    requires n <= |loaded| == |outside|
  {
    if n == 0 then db
    else EvaluateRule(EvaluateAll(db, loaded, outside, n - 1), loaded[n - 1].0, loaded[n - 1].1, outside[n - 1])
  }

  class AlertEvaluationWorker {
    var running: bool
    var warnedUnsupported: set<Id>
    const service: AlertService

    constructor (service: AlertService)
      ensures !running && warnedUnsupported == {} && this.service == service
    {
      running, warnedUnsupported := false, {};
      this.service := service;
    }

    /** Evaluates one rule; it may throw on the way, leaving the tables as they are then. */
    method EvaluateOne(rule: Id, r: Rule, o: Outside) returns (done: Result<bool>)
      modifies service, this`warnedUnsupported
      ensures service.db == EvaluateRule(old(service.db), rule, r, o)
      ensures done == Ok(true) <==> service.db != old(service.db)
      ensures done.Throws? ==> service.db == old(service.db)
      ensures warnedUnsupported == old(warnedUnsupported) + if r.condition == AnomalyDetected then {rule} else {}
    {
      if r.condition == AnomalyDetected {
        if rule !in warnedUnsupported { warnedUnsupported := warnedUnsupported + {rule}; }
        return Ok(false);
      }
      if o.muted { return Ok(false); }
      if o.maintenance { return Ok(false); }
      if HasOpen(service.db, rule) { return Ok(false); }
      if o.current.None? { return Throws; }
      var triggered := false;
      match r.condition {
        case GreaterThan => triggered := o.current.value > r.threshold;
        case LessThan => triggered := o.current.value < r.threshold;
        case Equals => triggered := o.current.value == r.threshold;
        case ChangesBy =>
          if o.previous.None? { return Throws; }
          triggered := Abs(o.current.value - o.previous.value) >= r.threshold;
      }
      if triggered {
        if rule !in service.db.rules || o.newId in service.db.incidents { return Throws; }
        service.db := CreateIncident(service.db, o.newId, rule);
      }
      done := Ok(triggered);
    }

    /** One timer tick. While a pass is running it does nothing; otherwise it loads the rules and
        tries each exactly once, whatever fails, and is not running afterwards. */
    method Evaluate(loaded: Option<seq<(Id, Rule)>>, outside: seq<Outside>) returns (tried: seq<Id>)
      requires loaded.Some? ==> |loaded.value| == |outside|
      modifies service, this
      ensures running == old(running)
      ensures old(running) || loaded.None? ==> service.db == old(service.db) && tried == []
      ensures !old(running) && loaded.Some? ==>
        service.db == EvaluateAll(old(service.db), loaded.value, outside, |outside|)
      ensures !old(running) && loaded.Some? ==>
        |tried| == |loaded.value| && forall i :: 0 <= i < |tried| ==> tried[i] == loaded.value[i].0
    {
      tried := [];
      if running { return; }
      running := true;
      if loaded.Some? {
        var rules := loaded.value;
        for k := 0 to |rules|
          invariant running
          invariant service.db == EvaluateAll(old(service.db), rules, outside, k)
          invariant |tried| == k && forall i :: 0 <= i < k ==> tried[i] == rules[i].0
        {
          var result := EvaluateOne(rules[k].0, rules[k].1, outside[k]);
          tried := tried + [rules[k].0];
        }
      }
      running := false;
    }
  }
}
