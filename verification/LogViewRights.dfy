/** What the saved-view requests guarantee, one at a time and over whole runs. */
module LogViewRights {
  import opened Text
  import opened LogViews

  // ---- who may change what

  predicate SameText(a: View, b: View) { a.name == b.name && a.definition == b.definition && a.shared == b.shared }

  /** Name, definition and sharing change only by the owner, or by OWNER/ADMIN of the team on a view
      that was shared already; a private view's owner needs no role, but a team-wide one's does. */
  lemma ChangeNeedsRight(views: Views, c: Caller, r: Request, newId: Id, now: nat, after: Views, response: Response,
                         i: Id)
    requires Step(views, c, r, newId, now, after, response)
    requires i in views && i in after && !SameText(views[i], after[i])
    ensures r.Update? && r.id == i && views[i].team == c.team
    ensures views[i].owner == Some(c.user) || (Manager(c) && views[i].shared)
    ensures IsTeamWideState(views[i]) || IsTeamWideState(after[i]) ==> Manager(c)
  {
  }

  /** A view disappears only by its owner, or by OWNER/ADMIN when it was shared or a default. */
  lemma RemovalNeedsRight(views: Views, c: Caller, r: Request, newId: Id, now: nat, after: Views, response: Response,
                          i: Id)
    requires Step(views, c, r, newId, now, after, response)
    requires i in views && i !in after
    ensures r == Remove(i) && response == Deleted && views[i].team == c.team
    ensures views[i].owner == Some(c.user) || (Manager(c) && IsTeamWideState(views[i]))
    ensures IsTeamWideState(views[i]) ==> Manager(c)
  {
  }

  /** Nobody else's private, non-default view is touched at all, by anyone, in any role. */
  lemma ForeignPrivateUntouched(views: Views, c: Caller, r: Request, newId: Id, now: nat, after: Views,
                                response: Response, i: Id)
    requires Step(views, c, r, newId, now, after, response)
    requires i in views && !IsTeamWideState(views[i]) && views[i].owner != Some(c.user)
    ensures i in after && after[i] == views[i]
  {
  }

  /** Without the role, a request leaves every shared or default view of the team as it was and makes
      none: a view it changes, adds or removes is the caller's own private one before and after. */
  lemma TeamStateNeedsManager(views: Views, c: Caller, r: Request, newId: Id, now: nat, after: Views,
                              response: Response, i: Id)
    requires Step(views, c, r, newId, now, after, response) && !Manager(c)
    ensures i in views && IsTeamWideState(views[i]) ==> i in after && after[i] == views[i]
    ensures i in after && IsTeamWideState(after[i]) ==> i in views && views[i] == after[i]
  {
  }

  /** No request of one team reaches another team's views, and no view changes team or owner. */
  lemma StepIsConfined(views: Views, c: Caller, r: Request, newId: Id, now: nat, after: Views, response: Response,
                       i: Id)
    requires Step(views, c, r, newId, now, after, response)
    ensures i in views && views[i].team != c.team ==> i in after && after[i] == views[i]
    ensures i in views && i in after ==> after[i].team == views[i].team && after[i].owner == views[i].owner
    ensures i !in views && i in after ==> i == newId && after[i].team == c.team && after[i].owner == Some(c.user)
  {
  }

  /** Exactly when an update is carried out, and on what. */
  lemma UpdateAllowed(views: Views, c: Caller, id: Id, change: Change, newId: Id, now: nat)
    requires newId !in views
    ensures var response := Write(views, c, Request.Update(id, change), newId, now).1;
      response.Full? || response.Stub? <==>
        && c.role.Some? && InTeam(views, id, c.team)
        && (IsTeamWideState(views[id]) || change.shared == Some(true) || change.isDefault == Some(true) ==> Manager(c))
        && (CanRead(views[id], c.user) || (views[id].isDefault && ClearsDefaultOnly(change)))
  {
  }

  // ---- defaults

  /** After a view was made the default, no other view its setter can see is one. */
  lemma OnlyDefault(views: Views, c: Caller, r: Request, newId: Id, now: nat, after: Views, response: Response, i: Id)
    requires Step(views, c, r, newId, now, after, response)
    requires response.Full? && response.view.isDefault && (r.Create? || (r.Update? && r.change.isDefault == Some(true)))
    requires i in after && after[i].isDefault && Listable(after[i], c.team, c.user)
    ensures i == response.id
  {
  }

  // ---- confidentiality

  /** What a user of a team is meant to see of a row: the whole of a readable view, the identity of a
      private default that OWNER/ADMIN may clean up, and nothing of any other. */
  datatype Sight = Whole(view: View) | Identity(owner: Option<Id>, updated: nat) | Hidden

  function Seen(views: Views, i: Id, team: Id, user: Id, manager: bool): Sight {
    if !InTeam(views, i, team) then Hidden
    else if CanRead(views[i], user) then Whole(views[i])
    else if manager && views[i].isDefault then Identity(views[i].owner, views[i].updated)
    else Hidden
  }

  ghost predicate Alike(a: Views, b: Views, team: Id, user: Id, manager: bool) {
    forall i: Id :: Seen(a, i, team, user, manager) == Seen(b, i, team, user, manager)
  }

  lemma AlikeAt(a: Views, b: Views, team: Id, user: Id, manager: bool, i: Id)
    requires Alike(a, b, team, user, manager)
    ensures Seen(a, i, team, user, manager) == Seen(b, i, team, user, manager)
  {
  }

  /** A view that can be read is the same in both tables, and one that cannot be is in neither. */
  lemma AlikeReads(a: Views, b: Views, team: Id, user: Id, manager: bool, i: Id)
    requires Alike(a, b, team, user, manager)
    ensures InTeam(a, i, team) && CanRead(a[i], user) <==> InTeam(b, i, team) && CanRead(b[i], user)
    ensures InTeam(a, i, team) && CanRead(a[i], user) ==> a[i] == b[i]
  {
    AlikeAt(a, b, team, user, manager, i);
  }

  lemma AlikeAfterPut(a: Views, b: Views, team: Id, user: Id, manager: bool, i: Id, v: View)
    requires Alike(a, b, team, user, manager)
    ensures Alike(a[i := v], b[i := v], team, user, manager)
  {
    var a', b' := a[i := v], b[i := v];
    forall j: Id ensures Seen(a', j, team, user, manager) == Seen(b', j, team, user, manager) {
      AlikeAt(a, b, team, user, manager, j);
    }
  }

  lemma AlikeAfterClear(a: Views, b: Views, team: Id, user: Id, manager: bool, now: nat)
    requires Alike(a, b, team, user, manager)
    ensures Alike(ClearDefaults(a, team, user, now), ClearDefaults(b, team, user, now), team, user, manager)
  {
    var a', b' := ClearDefaults(a, team, user, now), ClearDefaults(b, team, user, now);
    forall j: Id ensures Seen(a', j, team, user, manager) == Seen(b', j, team, user, manager) {
      AlikeAt(a, b, team, user, manager, j);
    }
  }

  lemma UpdateRevealsNothing(a: Views, b: Views, id: Id, team: Id, user: Id, acts: bool, c: Change, now: nat,
                             manager: bool)
    requires Alike(a, b, team, user, manager) && (acts ==> manager)
    ensures UpdateView(a, id, team, user, acts, c, now).1 == UpdateView(b, id, team, user, acts, c, now).1
    ensures Alike(UpdateView(a, id, team, user, acts, c, now).0,
                  UpdateView(b, id, team, user, acts, c, now).0, team, user, manager)
  {
    hide Alike, ClearDefaults, Changed;
    AlikeAt(a, b, team, user, manager, id);
    if Refusal(a, id, team, user, acts).None? {
      if IsForeignPrivateDefault(a[id], user) {
        ClearedForeign(a, b, id, team, user, manager, now);
      } else {
        AlikeAfterClear(a, b, team, user, manager, now);
        ClearKeepsText(a, id, team, user, now);
        ClearKeepsText(b, id, team, user, now);
        AlikeReads(a, b, team, user, manager, id);
        var a' := if c.isDefault == Some(true) then ClearDefaults(a, team, user, now) else a;
        var b' := if c.isDefault == Some(true) then ClearDefaults(b, team, user, now) else b;
        AlikeReads(a', b', team, user, manager, id);
        AlikeAfterPut(a', b', team, user, manager, id, Changed(a'[id], c, now));
      }
    }
  }

  lemma ClearKeepsText(views: Views, id: Id, team: Id, user: Id, now: nat)
    requires id in views
    ensures id in ClearDefaults(views, team, user, now)
    ensures var v := ClearDefaults(views, team, user, now)[id];
      SameText(v, views[id]) && v.owner == views[id].owner && v.team == views[id].team
  {
  }

  lemma ClearedForeign(a: Views, b: Views, id: Id, team: Id, user: Id, manager: bool, now: nat)
    requires Alike(a, b, team, user, manager) && InTeam(a, id, team) && InTeam(b, id, team)
    requires IsForeignPrivateDefault(a[id], user) && IsForeignPrivateDefault(b[id], user)
    ensures Alike(a[id := a[id].(isDefault := false, updated := now)],
                  b[id := b[id].(isDefault := false, updated := now)],
                  team, user, manager)
  {
    var a', b' :=
      a[id := a[id].(isDefault := false, updated := now)], b[id := b[id].(isDefault := false, updated := now)];
    forall j: Id ensures Seen(a', j, team, user, manager) == Seen(b', j, team, user, manager) {
      AlikeAt(a, b, team, user, manager, j);
    }
  }

  lemma RemoveRevealsNothing(a: Views, b: Views, id: Id, team: Id, user: Id, acts: bool, manager: bool)
    requires Alike(a, b, team, user, manager) && (acts ==> manager)
    ensures RemoveView(a, id, team, user, acts).1 == RemoveView(b, id, team, user, acts).1
    ensures Alike(RemoveView(a, id, team, user, acts).0, RemoveView(b, id, team, user, acts).0, team, user, manager)
  {
    AlikeAt(a, b, team, user, manager, id);
    if Refusal(a, id, team, user, acts).None? {
      var a', b' := a - {id}, b - {id};
      forall j: Id ensures Seen(a', j, team, user, manager) == Seen(b', j, team, user, manager) {
        AlikeAt(a, b, team, user, manager, j);
      }
    }
  }

  /** Tables that look alike to a caller answer alike and look alike afterwards: neither an answer nor
      its effect depends on the name or the definition, or even on the existence, of what is hidden. */
  lemma WriteRevealsNothing(a: Views, b: Views, c: Caller, r: Request, newId: Id, now: nat, manager: bool)
    requires Alike(a, b, c.team, c.user, manager) && (Manager(c) ==> manager)
    ensures Write(a, c, r, newId, now).1 == Write(b, c, r, newId, now).1
    ensures Alike(Write(a, c, r, newId, now).0, Write(b, c, r, newId, now).0, c.team, c.user, manager)
  {
    hide Alike, UpdateView, RemoveView, ClearDefaults;
    match r
    case Create(name, shared, isDefault, definition) =>
      var v := View(c.team, Some(c.user), name, shared, isDefault, definition, now);
      AlikeAfterClear(a, b, c.team, c.user, manager, now);
      AlikeAfterPut(a, b, c.team, c.user, manager, newId, v);
      AlikeAfterPut(ClearDefaults(a, c.team, c.user, now), ClearDefaults(b, c.team, c.user, now), c.team, c.user,
                    manager, newId, v);
    case Update(id, change) => UpdateRevealsNothing(a, b, id, c.team, c.user, Manager(c), change, now, manager);
    case Duplicate(id, name) =>
      AlikeReads(a, b, c.team, c.user, manager, id);
      var response := DuplicateView(a, id, newId, c.team, c.user, Manager(c), name, now).1;
      if response.Full? { AlikeAfterPut(a, b, c.team, c.user, manager, newId, response.view); }
    case Remove(id) => RemoveRevealsNothing(a, b, id, c.team, c.user, Manager(c), manager);
    case List =>
  }

  /** The same for the list query. */
  lemma ListRevealsNothing(a: Views, b: Views, team: Id, user: Id, manager: bool, rows: seq<(Id, View)>)
    requires Alike(a, b, team, user, manager) && IsListing(a, team, user, rows)
    ensures IsListing(b, team, user, rows)
  {
    forall r | r in rows ensures r.0 in b && r.1 == b[r.0] && Listable(r.1, team, user) {
      assert Seen(a, r.0, team, user, manager) == Seen(b, r.0, team, user, manager);
    }
    forall i | i in b && Listable(b[i], team, user) ensures (i, b[i]) in rows {
      assert Seen(a, i, team, user, manager) == Seen(b, i, team, user, manager);
    }
  }

  /** A step that changes, adds and removes no shared or default view. */
  ghost predicate PrivateStep(views: Views, after: Views) {
    && (forall i <- views :: i !in after || after[i] != views[i] ==> !IsTeamWideState(views[i]))
    && (forall i <- after :: i !in views || after[i] != views[i] ==> !IsTeamWideState(after[i]))
  }

  /** What another user does with private, non-default views of their own is invisible, and so is whatever
      anyone does in another team. */
  lemma PrivateWorkIsInvisible(views: Views, c: Caller, r: Request, newId: Id, now: nat, after: Views,
                               response: Response,
                               team: Id, user: Id, manager: bool)
    requires Step(views, c, r, newId, now, after, response)
    requires c.team != team || (c.user != user && PrivateStep(views, after))
    ensures Alike(views, after, team, user, manager)
  {
    hide Step;
    forall i: Id ensures Seen(views, i, team, user, manager) == Seen(after, i, team, user, manager) {
      StepIsConfined(views, c, r, newId, now, after, response, i);
      if i in views && !IsTeamWideState(views[i]) && views[i].owner != Some(c.user) {
        ForeignPrivateUntouched(views, c, r, newId, now, after, response, i);
      }
    }
  }

  // ---- whole runs

  datatype Entry = Entry(caller: Caller, request: Request, newId: Id, now: nat, response: Response)

  ghost predicate Served(before: Views, e: Entry, after: Views) {
    Step(before, e.caller, e.request, e.newId, e.now, after, e.response)
  }

  /** Requests of any users, one after another; an id once given is never given again. */
  ghost predicate IsRun(states: seq<Views>, log: seq<Entry>) {
    && |states| == |log| + 1
    && (forall k :: 0 <= k < |log| ==> Served(states[k], log[k], states[k + 1]))
    && (forall j, k :: 0 <= j <= k < |log| ==> log[k].newId !in states[j])
  }

  /** The request is an update of the view by someone entitled to edit it as it stands. */
  predicate EditedBy(views: Views, e: Entry, i: Id) {
    e.request.Update? && e.request.id == i && i in views && MayEdit(views[i], e.caller)
  }

  predicate MayEdit(v: View, c: Caller) { c.team == v.team && (v.owner == Some(c.user) || (v.shared && Manager(c))) }

  lemma {:induction false} NeverComesBack(states: seq<Views>, log: seq<Entry>, a: nat, b: nat, c: nat, i: Id)
    requires IsRun(states, log) && a <= b <= c < |states|
    requires i in states[a] && i in states[c]
    ensures i in states[b]
    decreases c - b
  {
    hide Step;
    if b < c {
      NeverComesBack(states, log, a, b + 1, c, i);
      assert Served(states[b], log[b], states[b + 1]) && log[b].newId !in states[a];
      StepIsConfined(states[b], log[b].caller, log[b].request, log[b].newId, log[b].now, states[b + 1],
                     log[b].response, i);
    }
  }

  /** Over a whole run: behind every change of a view's name, definition or sharing there is a request
      of its owner, or of an OWNER/ADMIN of its team at a moment when it was shared. */
  lemma {:induction false} EveryEditHasItsEditor(states: seq<Views>, log: seq<Entry>, a: nat, b: nat, i: Id)
    requires IsRun(states, log) && a <= b < |states|
    requires i in states[a] && i in states[b] && !SameText(states[a][i], states[b][i])
    ensures exists k :: a <= k < b && EditedBy(states[k], log[k], i)
    decreases b - a
  {
    hide Step, MayEdit;
    NeverComesBack(states, log, a, a + 1, b, i);
    assert Served(states[a], log[a], states[a + 1]);
    if SameText(states[a][i], states[a + 1][i]) {
      EveryEditHasItsEditor(states, log, a + 1, b, i);
    } else {
      ChangeNeedsRight(states[a], log[a].caller, log[a].request, log[a].newId, log[a].now, states[a + 1],
                       log[a].response, i);
      MayEditIf(states[a][i], log[a].caller);
      assert EditedBy(states[a], log[a], i);
    }
  }

  lemma MayEditIf(v: View, c: Caller)
    requires c.team == v.team && (v.owner == Some(c.user) || (Manager(c) && v.shared))
    ensures MayEdit(v, c)
  {
  }

  /** While its owner makes no request, a private, non-default view stays exactly as it is. */
  lemma {:induction false} PrivateViewsKeep(states: seq<Views>, log: seq<Entry>, i: Id)
    requires IsRun(states, log) && i in states[0] && !IsTeamWideState(states[0][i])
    requires forall e <- log :: states[0][i].owner != Some(e.caller.user)
    ensures i in states[|log|] && states[|log|][i] == states[0][i]
    decreases |log|
  {
    hide Step;
    if log != [] {
      var k := |log| - 1;
      RunPrefix(states, log);
      PrivateViewsKeep(states[..k + 1], log[..k], i);
      assert Served(states[k], log[k], states[k + 1]) && log[k] in log;
      ForeignPrivateUntouched(states[k], log[k].caller, log[k].request, log[k].newId, log[k].now, states[k + 1],
                              log[k].response, i);
    }
  }

  lemma RunPrefix(states: seq<Views>, log: seq<Entry>)
    requires IsRun(states, log) && log != []
    ensures IsRun(states[..|log|], log[..|log| - 1])
    ensures forall e <- log[..|log| - 1] :: e in log
  {
    hide Served;
  }

  /** Without a request of an OWNER or ADMIN the shared and default views stay as they are, and no
      further one appears. */
  lemma {:induction false} TeamStateKeeps(states: seq<Views>, log: seq<Entry>, i: Id)
    requires IsRun(states, log)
    requires forall e <- log :: !Manager(e.caller)
    ensures var a, b := states[0], states[|log|];
      && (i in a && IsTeamWideState(a[i]) ==> i in b && b[i] == a[i])
      && (i in b && IsTeamWideState(b[i]) ==> i in a && a[i] == b[i])
    decreases |log|
  {
    hide Step;
    if log != [] {
      var k := |log| - 1;
      RunPrefix(states, log);
      TeamStateKeeps(states[..k + 1], log[..k], i);
      assert Served(states[k], log[k], states[k + 1]) && log[k] in log;
      TeamStateNeedsManager(states[k], log[k].caller, log[k].request, log[k].newId, log[k].now, states[k + 1],
                            log[k].response, i);
    }
  }

  /** The tables a log leads to; a list query leaves them alone. */
  function After(views: Views, e: Entry): Views {
    if e.request.List? && e.caller.role.Some? then views else Write(views, e.caller, e.request, e.newId, e.now).0
  }

  function AllAfter(views: Views, log: seq<Entry>): seq<Views> {
    if log == [] then [views]
    else var before := AllAfter(views, log[..|log| - 1]); before + [After(before[|before| - 1], log[|log| - 1])]
  }

  lemma {:induction false} AllAfterLength(views: Views, log: seq<Entry>)
    ensures |AllAfter(views, log)| == |log| + 1 && AllAfter(views, log)[0] == views
    decreases |log|
  {
    if log != [] { AllAfterLength(views, log[..|log| - 1]); }
  }

  predicate Unused(states: seq<Views>, i: Id) { forall v <- states :: i !in v }

  /** A table keeps only ids it had or was given. */
  lemma {:induction false} IdsComeFrom(views: Views, log: seq<Entry>, i: Id)
    requires i !in views && forall e <- log :: e.newId != i
    ensures Unused(AllAfter(views, log), i)
    decreases |log|
  {
    hide Write;
    AllAfterLength(views, log);
    if log != [] {
      var front, e := log[..|log| - 1], log[|log| - 1];
      IdsComeFrom(views, front, i);
      AllAfterLength(views, front);
      var v := AllAfter(views, front)[|front|];
      assert v in AllAfter(views, front) && e in log;
      if !(e.request.List? && e.caller.role.Some?) { WriteKeepsIds(v, e, i); }
    }
  }

  lemma WriteKeepsIds(v: Views, e: Entry, i: Id)
    requires i !in v && e.newId != i
    ensures i !in Write(v, e.caller, e.request, e.newId, e.now).0
  {
  }

  predicate Own(c: Caller, team: Id, user: Id) { c.user == user && c.team == team }

  /** The requests a user makes for a team. */
  function OwnLog(log: seq<Entry>, team: Id, user: Id): seq<Entry> {
    if log == [] then []
    else
      var e := log[|log| - 1];
      OwnLog(log[..|log| - 1], team, user) + if Own(e.caller, team, user) then [e] else []
  }

  /** A user's own request, or one that stays out of the user's sight: made in another team, or private work. */
  ghost predicate OwnOrUnseen(e: Entry, before: Views, after: Views, team: Id, user: Id) {
    Own(e.caller, team, user) || e.caller.team != team || (e.caller.user != user && PrivateStep(before, after))
  }

  ghost predicate OthersWorkPrivately(states: seq<Views>, log: seq<Entry>, team: Id, user: Id)
    requires |states| == |log| + 1
  {
    forall k :: 0 <= k < |log| ==> OwnOrUnseen(log[k], states[k], states[k + 1], team, user)
  }

  ghost predicate NewAndDistinct(log: seq<Entry>, other: Views) {
    && (forall e <- log :: e.newId !in other)
    && (forall j, k :: 0 <= j < k < |log| ==> log[j].newId != log[k].newId)
  }

  /** What a user learns from any number of requests, while others do any amount of private work in between:
      the user's own log, answers and all, is by itself a run from every other table that looked the same to
      that user at the start. */
  lemma {:induction false} RunsRevealNothing(states: seq<Views>, log: seq<Entry>, other: Views, team: Id, user: Id,
                                             manager: bool)
    requires IsRun(states, log) && OthersWorkPrivately(states, log, team, user)
    requires forall e <- OwnLog(log, team, user) :: Manager(e.caller) ==> manager
    requires Alike(states[0], other, team, user, manager)
    requires NewAndDistinct(OwnLog(log, team, user), other)
    ensures var own := OwnLog(log, team, user);
      && |AllAfter(other, own)| == |own| + 1 && IsRun(AllAfter(other, own), own)
      && Alike(states[|log|], AllAfter(other, own)[|own|], team, user, manager)
    decreases |log|
  {
    hide Served, Write, Alike, IsListing, Manager, After, IsRun, AllAfter, PrivateStep, NewAndDistinct,
      OthersWorkPrivately, OwnLog;
    RunShape(states, log);
    var own := OwnLog(log, team, user);
    AllAfterLength(other, own);
    if log == [] {
      assert own == [] by { NoneOwn(team, user); }
      NoRequests(other);
    } else {
      var n := |log| - 1;
      var front, e := log[..n], log[n];
      RunPrefix(states, log);
      OwnPrefix(log, team, user, other);
      OthersPrefix(states, log, team, user);
      var before := OwnLog(front, team, user);
      RunsRevealNothing(states[..n + 1], front, other, team, user, manager);
      AllAfterLength(other, before);
      var b := AllAfter(other, before)[|before|];
      if Own(e.caller, team, user) {
        assert own == before + [e] && e in own && own[..|own| - 1] == before;
        LastIdIsNew(other, own);
        assert b in AllAfter(other, before);
        OneMoreAlike(states[n], b, e, states[n + 1], team, user, manager);
        RunGrows(AllAfter(other, before), before, e, After(b, e));
        AfterOneMore(other, own);
      } else {
        assert own == before + [] == before;
        OthersUnseen(states[n], b, e, states[n + 1], team, user, manager);
      }
    }
  }

  lemma NoneOwn(team: Id, user: Id)
    ensures OwnLog([], team, user) == []
  {
  }

  lemma OwnPrefix(log: seq<Entry>, team: Id, user: Id, other: Views)
    requires log != [] && NewAndDistinct(OwnLog(log, team, user), other)
    ensures var front := OwnLog(log[..|log| - 1], team, user);
      && NewAndDistinct(front, other)
      && (forall e <- front :: e in OwnLog(log, team, user))
      && OwnLog(log, team, user) == front + if Own(log[|log| - 1].caller, team, user) then [log[|log| - 1]] else []
  {
    hide NewAndDistinct;
    var e := log[|log| - 1];
    var front := OwnLog(log[..|log| - 1], team, user);
    var rest := if Own(e.caller, team, user) then [e] else [];
    assert OwnLog(log, team, user) == front + rest;
    NewFront(front, rest, other);
  }

  lemma NewFront(front: seq<Entry>, rest: seq<Entry>, other: Views)
    requires NewAndDistinct(front + rest, other)
    ensures NewAndDistinct(front, other) && forall e <- front :: e in front + rest
  {
    var all := front + rest;
    assert forall k :: 0 <= k < |front| ==> front[k] == all[k];
    forall e | e in front ensures e in all { }
  }

  lemma OthersPrefix(states: seq<Views>, log: seq<Entry>, team: Id, user: Id)
    requires |states| == |log| + 1 && log != [] && OthersWorkPrivately(states, log, team, user)
    ensures OthersWorkPrivately(states[..|log|], log[..|log| - 1], team, user)
    ensures OwnOrUnseen(log[|log| - 1], states[|log| - 1], states[|log|], team, user)
  {
    hide OwnOrUnseen;
    var ss, front := states[..|log|], log[..|log| - 1];
    forall k | 0 <= k < |front| ensures OwnOrUnseen(front[k], ss[k], ss[k + 1], team, user) {
      assert OwnOrUnseen(log[k], states[k], states[k + 1], team, user);
    }
  }

  lemma OthersUnseen(a: Views, b: Views, e: Entry, a': Views, team: Id, user: Id, manager: bool)
    requires Served(a, e, a') && Alike(a, b, team, user, manager)
    requires e.caller.team != team || (e.caller.user != user && PrivateStep(a, a'))
    ensures Alike(a', b, team, user, manager)
  {
    hide Step, PrivateStep, Seen;
    PrivateWorkIsInvisible(a, e.caller, e.request, e.newId, e.now, a', e.response, team, user, manager);
    forall i: Id ensures Seen(a', i, team, user, manager) == Seen(b, i, team, user, manager) {
      AlikeAt(a, a', team, user, manager, i);
      AlikeAt(a, b, team, user, manager, i);
    }
  }

  /** In particular, when all the requests are the user's own. */
  lemma {:induction false} OwnRunsRevealNothing(states: seq<Views>, log: seq<Entry>, other: Views, team: Id, user: Id,
                                                manager: bool)
    requires IsRun(states, log)
    requires forall e <- log :: Own(e.caller, team, user) && (Manager(e.caller) ==> manager)
    requires Alike(states[0], other, team, user, manager) && NewAndDistinct(log, other)
    ensures |AllAfter(other, log)| == |log| + 1 && IsRun(AllAfter(other, log), log)
    ensures Alike(states[|log|], AllAfter(other, log)[|log|], team, user, manager)
  {
    hide IsRun, AllAfter, Alike, NewAndDistinct, Manager, PrivateStep;
    RunShape(states, log);
    AllOwn(log, team, user);
    forall k | 0 <= k < |log| ensures OwnOrUnseen(log[k], states[k], states[k + 1], team, user) {
      assert log[k] in log;
    }
    RunsRevealNothing(states, log, other, team, user, manager);
  }

  lemma {:induction false} AllOwn(log: seq<Entry>, team: Id, user: Id)
    requires forall e <- log :: Own(e.caller, team, user)
    ensures OwnLog(log, team, user) == log
    decreases |log|
  {
    if log != [] {
      var front, e := log[..|log| - 1], log[|log| - 1];
      assert log == front + [e] && e in log && forall x <- front :: x in log;
      AllOwn(front, team, user);
    }
  }

  lemma RunShape(states: seq<Views>, log: seq<Entry>)
    requires IsRun(states, log)
    ensures |states| == |log| + 1 && forall k :: 0 <= k < |log| ==> Served(states[k], log[k], states[k + 1])
  {
    hide Served;
  }

  lemma NoRequests(views: Views)
    ensures AllAfter(views, []) == [views] && IsRun([views], [])
  {
  }

  lemma AfterOneMore(views: Views, log: seq<Entry>)
    requires log != []
    ensures var n := |log| - 1; var before := AllAfter(views, log[..n]);
      |before| == n + 1 && AllAfter(views, log) == before + [After(before[n], log[n])]
  {
    hide After;
    AllAfterLength(views, log[..|log| - 1]);
  }

  lemma LastIdIsNew(views: Views, log: seq<Entry>)
    requires log != [] && NewAndDistinct(log, views)
    ensures Unused(AllAfter(views, log[..|log| - 1]), log[|log| - 1].newId)
  {
    hide AllAfter;
    var front, e := log[..|log| - 1], log[|log| - 1];
    forall g | g in front ensures g.newId != e.newId { var j :| 0 <= j < |front| && front[j] == g; assert log[j] == g; }
    assert e in log;
    IdsComeFrom(views, front, e.newId);
  }

  lemma OneMoreAlike(a: Views, b: Views, e: Entry, a': Views, team: Id, user: Id, manager: bool)
    requires Served(a, e, a') && Alike(a, b, team, user, manager) && e.newId !in b
    requires e.caller.user == user && e.caller.team == team && (Manager(e.caller) ==> manager)
    ensures Served(b, e, After(b, e)) && Alike(a', After(b, e), team, user, manager)
  {
    hide Write, Alike, IsListing;
    if e.request.List? && e.caller.role.Some? {
      ListRevealsNothing(a, b, team, user, manager, e.response.rows);
    } else {
      WriteRevealsNothing(a, b, e.caller, e.request, e.newId, e.now, manager);
    }
  }

  lemma RunGrows(states: seq<Views>, log: seq<Entry>, e: Entry, last: Views)
    requires IsRun(states, log) && Served(states[|log|], e, last)
    requires Unused(states, e.newId)
    ensures IsRun(states + [last], log + [e])
  {
    hide Served;
  }
}
