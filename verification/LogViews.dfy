/** Saved log views of a team: who may see, change, copy and delete them. */
module LogViews {
  import opened Text

  type Id = nat

  datatype Role = Owner | Admin | Member | Viewer

  predicate CanManageShared(role: Role) { role.Owner? || role.Admin? }

  /** `owner` is empty once the owning account is gone; `definition` is the stored JSON. */
  datatype View = View(team: Id, owner: Option<Id>, name: string, shared: bool, isDefault: bool, definition: string,
                       updated: nat)

  type Views = map<Id, View>

  /** The fields of an update; an absent one keeps its value. */
  datatype Change = Change(name: Option<string>, shared: Option<bool>, isDefault: Option<bool>,
                           definition: Option<string>)

  datatype Response = Full(id: Id, view: View)
                    | Stub(id: Id, team: Id, owner: Option<Id>, shared: bool, isDefault: bool, updated: nat)
                    | Listed(rows: seq<(Id, View)>)
                    | Deleted | NotFound | Forbidden

  // ---- permissions

  predicate CanRead(v: View, user: Id) { v.shared || v.owner == Some(user) }

  predicate IsTeamWideState(v: View) { v.shared || v.isDefault }

  predicate IsForeignPrivateDefault(v: View, user: Id) { !v.shared && v.isDefault && v.owner != Some(user) }

  predicate Visible(v: View, user: Id, manager: bool) {
    CanRead(v, user) || (manager && IsForeignPrivateDefault(v, user))
  }

  predicate CanMutate(v: View, user: Id, manager: bool) { v.owner == Some(user) || (IsTeamWideState(v) && manager) }

  predicate ClearsDefaultOnly(c: Change) { c == Change(None, None, Some(false), None) }

  // ---- operations

  predicate InTeam(views: Views, id: Id, team: Id) { id in views && views[id].team == team }

  /** What setting a default clears first: the caller's own views and the team's shared ones. */
  predicate Cleared(v: View, team: Id, user: Id) { v.team == team && (v.owner == Some(user) || v.shared) }

  /** A row when a default is set, if one is. */
  function Undefaulted(v: View, sets: bool, team: Id, user: Id, now: nat): View {
    if sets && Cleared(v, team, user) then v.(isDefault := false, updated := now) else v
  }

  function ClearDefaults(views: Views, team: Id, user: Id, now: nat): Views {
    map i | i in views ::
      if Cleared(views[i], team, user) then views[i].(isDefault := false, updated := now) else views[i]
  }

  function Changed(v: View, c: Change, now: nat): View {
    v.(name := if c.name.Some? then c.name.value else v.name,
       shared := if c.shared.Some? then c.shared.value else v.shared,
       isDefault := if c.isDefault.Some? then c.isDefault.value else v.isDefault,
       definition := if c.definition.Some? then c.definition.value else v.definition,
       updated := now)
  }

  function CreateView(views: Views, newId: Id, team: Id, user: Id, name: string, shared: bool, isDefault: bool,
                      definition: string, now: nat): (Views, Response)
  {
    var before := if isDefault then ClearDefaults(views, team, user, now) else views;
    var v := View(team, Some(user), name, shared, isDefault, definition, now);
    (before[newId := v], Full(newId, v))
  }

  /** Why an update or a delete is refused, judged on the stored view. */
  function Refusal(views: Views, id: Id, team: Id, user: Id, manager: bool): Option<Response> {
    if !InTeam(views, id, team) || !Visible(views[id], user, manager) then Some(NotFound)
    else if (IsTeamWideState(views[id]) && !manager) || !CanMutate(views[id], user, manager) then Some(Forbidden)
    else None
  }

  function UpdateView(views: Views, id: Id, team: Id, user: Id, manager: bool, c: Change, now: nat): (Views, Response) {
    var refusal := Refusal(views, id, team, user, manager);
    if refusal.Some? then (views, refusal.value)
    else if IsForeignPrivateDefault(views[id], user) then
      if !ClearsDefaultOnly(c) then (views, Forbidden)
      else
        var v := views[id].(isDefault := false, updated := now);
        (views[id := v], Stub(id, v.team, v.owner, v.shared, v.isDefault, v.updated))
    else
      var before := if c.isDefault == Some(true) then ClearDefaults(views, team, user, now) else views;
      var v := Changed(before[id], c, now);
      (before[id := v], Full(id, v))
  }

  /** A copy is the caller's own and never a default; it is shared only if the original is and the
      caller may share. A blank name falls back to the original's. */
  function DuplicateView(views: Views, id: Id, newId: Id, team: Id, user: Id, manager: bool, name: Option<string>,
                         now: nat): (Views, Response)
  {
    if !InTeam(views, id, team) || !CanRead(views[id], user) then (views, NotFound)
    else
      var given := if name.Some? then Trim(name.value) else "";
      var v := View(team, Some(user), if given != "" then given else views[id].name + " (copy)",
                    views[id].shared && manager, false, views[id].definition, now);
      (views[newId := v], Full(newId, v))
  }

  function RemoveView(views: Views, id: Id, team: Id, user: Id, manager: bool): (Views, Response) {
    var refusal := Refusal(views, id, team, user, manager);
    if refusal.Some? then (views, refusal.value) else (views - {id}, Deleted)
  }

  // ---- the same, field by field

  /** `w` is `v` with each given field as given, and the rest as it was. */
  predicate Stored(v: View, c: Change, now: nat, w: View) {
    && (if c.name.Some? then w.name == c.name.value else w.name == v.name)
    && (if c.shared.Some? then w.shared == c.shared.value else w.shared == v.shared)
    && (if c.isDefault.Some? then w.isDefault == c.isDefault.value else w.isDefault == v.isDefault)
    && (if c.definition.Some? then w.definition == c.definition.value else w.definition == v.definition)
    && w.team == v.team && w.owner == v.owner && w.updated == now
  }

  /** Every view but `id` stays as it is, except that the user's own and the team's shared ones stop being
      defaults when `sets`. */
  predicate OthersKept(views: Views, after: Views, id: Id, sets: bool, team: Id, user: Id, now: nat) {
    && after.Keys - {id} == views.Keys - {id}
    && forall i <- views :: i != id ==> i in after && KeptBut(views[i], after[i], sets, team, user, now)
  }

  predicate KeptBut(v: View, w: View, sets: bool, team: Id, user: Id, now: nat) {
    if sets && v.team == team && (v.shared || v.owner == Some(user))
    then w == View(team, v.owner, v.name, v.shared, false, v.definition, now)
    else w == v
  }

  /** There is such a view of the team, and the user may know it: it is shared, or the user's own, or a default and
      the user an owner or admin of the team. */
  predicate Known(views: Views, id: Id, team: Id, user: Id, manager: bool) {
    id in views && views[id].team == team
    && (views[id].shared || views[id].owner == Some(user) || (manager && views[id].isDefault))
  }

  /** The user may change or delete it: an owner or admin of the team, or its owner while it is neither shared nor
      a default. */
  predicate Open(v: View, manager: bool) { manager || (!v.shared && !v.isDefault) }

  /** It may be changed in full by the user. */
  predicate Readable(v: View, user: Id) { v.shared || v.owner == Some(user) }

  /** The service object over its table. */
  class LogViewService {
    var views: Views

    constructor (views: Views)
      ensures this.views == views
    {
      this.views := views;
    }

    method UpdateMany(team: Id, user: Id, now: nat)
      modifies this
      ensures views == ClearDefaults(old(views), team, user, now)
    {
      views := map i | i in views ::
        if views[i].team == team && (views[i].owner == Some(user) || views[i].shared)
        then views[i].(isDefault := false, updated := now) else views[i];
    }

    method Create(newId: Id, team: Id, user: Id, name: string, shared: bool, isDefault: bool, definition: string,
                  now: nat)
      returns (response: Response)
      modifies this
      ensures (views, response) == CreateView(old(views), newId, team, user, name, shared, isDefault, definition, now)
      ensures newId in views && response == Full(newId, views[newId])
      ensures views[newId] == View(team, Some(user), name, shared, isDefault, definition, now)
      ensures OthersKept(old(views), views, newId, isDefault, team, user, now)
    {
      if isDefault { UpdateMany(team, user, now); }
      var view := View(team, Some(user), name, shared, isDefault, definition, now);
      views := views[newId := view];
      response := Full(newId, view);
    }

    method Update(id: Id, team: Id, user: Id, manager: bool, c: Change, now: nat) returns (response: Response)
      modifies this
      ensures (views, response) == UpdateView(old(views), id, team, user, manager, c, now)
      ensures views.Keys == old(views).Keys
      ensures response.NotFound? <==> !Known(old(views), id, team, user, manager)
      ensures response.Full? <==>
        Known(old(views), id, team, user, manager) && Open(old(views)[id], manager) && Readable(old(views)[id], user)
      ensures response.Stub? <==>
        && Known(old(views), id, team, user, manager) && !Readable(old(views)[id], user)
        && c == Change(None, None, Some(false), None)
      ensures response.NotFound? || response.Forbidden? || response.Full? || response.Stub?
      ensures response.NotFound? || response.Forbidden? ==> views == old(views)
      ensures response.Full? ==> response == Full(id, views[id]) && Stored(old(views)[id], c, now, views[id])
      ensures response.Stub? ==> response == Stub(id, team, old(views)[id].owner, false, false, now)
      ensures response.Stub? ==> Stored(old(views)[id], c, now, views[id])
      ensures OthersKept(old(views), views, id, response.Full? && c.isDefault == Some(true), team, user, now)
    {
      if id !in views || views[id].team != team { return NotFound; }
      var existing := views[id];
      if !CanRead(existing, user) && !(manager && IsForeignPrivateDefault(existing, user)) { return NotFound; }
      if IsTeamWideState(existing) && !manager { return Forbidden; }
      if !CanMutate(existing, user, manager) { return Forbidden; }
      if IsForeignPrivateDefault(existing, user) {
        if !ClearsDefaultOnly(c) { return Forbidden; }
        var cleared := existing.(isDefault := false, updated := now);
        views := views[id := cleared];
        return Stub(id, cleared.team, cleared.owner, cleared.shared, cleared.isDefault, cleared.updated);
      }
      if c.isDefault == Some(true) { UpdateMany(team, user, now); }
      var updated := Changed(views[id], c, now);
      views := views[id := updated];
      response := Full(id, updated);
    }

    method Duplicate(id: Id, newId: Id, team: Id, user: Id, manager: bool, name: Option<string>, now: nat)
      returns (response: Response)
      modifies this
      ensures (views, response) == DuplicateView(old(views), id, newId, team, user, manager, name, now)
      ensures response.Full? <==>
        id in old(views) && old(views)[id].team == team && Readable(old(views)[id], user)
      ensures !response.Full? ==> response.NotFound?
      ensures response.Full? ==> var v := response.view;
        && views == old(views)[newId := v] && v.owner == Some(user) && v.team == team && !v.isDefault && v.name != ""
        && v.definition == old(views)[id].definition && v.shared == (manager && old(views)[id].shared)
        && v.updated == now && response.id == newId
        && v.name == if name.Some? && Trim(name.value) != "" then Trim(name.value) else old(views)[id].name + " (copy)"
      ensures !response.Full? ==> views == old(views)
    {
      if id !in views || views[id].team != team { return NotFound; }
      var existing := views[id];
      if !CanRead(existing, user) { return NotFound; }
      var given := if name.Some? then Trim(name.value) else "";
      var copy := View(team, Some(user), if given != "" then given else existing.name + " (copy)",
                       existing.shared && manager, false, existing.definition, now);
      views := views[newId := copy];
      response := Full(newId, copy);
    }

    method Remove(id: Id, team: Id, user: Id, manager: bool) returns (response: Response)
      modifies this
      ensures (views, response) == RemoveView(old(views), id, team, user, manager)
      ensures response.NotFound? <==> !Known(old(views), id, team, user, manager)
      ensures response.Deleted? <==> Known(old(views), id, team, user, manager) && Open(old(views)[id], manager)
      ensures response.NotFound? || response.Forbidden? || response.Deleted?
      ensures response == Deleted ==> views == old(views) - {id}
      ensures response != Deleted ==> views == old(views)
    {
      if id !in views || views[id].team != team { return NotFound; }
      var existing := views[id];
      if !CanRead(existing, user) && !(manager && IsForeignPrivateDefault(existing, user)) { return NotFound; }
      if IsTeamWideState(existing) && !manager { return Forbidden; }
      if !CanMutate(existing, user, manager) { return Forbidden; }
      views := views - {id};
      response := Deleted;
    }
  }

  // ---- requests as the routes let them through

  datatype Request = Create(name: string, shared: bool, isDefault: bool, definition: string)
                   | Update(id: Id, change: Change)
                   | Duplicate(id: Id, copyName: Option<string>)
                   | Remove(id: Id)
                   | List

  /** Who asks, for which team, and the role held there, if any. */
  datatype Caller = Caller(user: Id, team: Id, role: Option<Role>)

  predicate Manager(c: Caller) { c.role.Some? && CanManageShared(c.role.value) }

  predicate RequestsSharedState(r: Request) {
    match r
    case Create(_, shared, isDefault, _) => shared || isDefault
    case Update(_, c) => c.shared == Some(true) || c.isDefault == Some(true)
    case _ => false
  }

  /** A writing request; `newId` is the id a new row gets. */
  function Write(views: Views, c: Caller, r: Request, newId: Id, now: nat): (Views, Response) {
    if c.role.None? then (views, Forbidden)
    else if RequestsSharedState(r) && !Manager(c) then (views, Forbidden)
    else
      match r
      case Create(name, shared, isDefault, definition) =>
        CreateView(views, newId, c.team, c.user, name, shared, isDefault, definition, now)
      case Update(id, change) => UpdateView(views, id, c.team, c.user, Manager(c), change, now)
      case Duplicate(id, name) => DuplicateView(views, id, newId, c.team, c.user, Manager(c), name, now)
      case Remove(id) => RemoveView(views, id, c.team, c.user, Manager(c))
      case List => (views, NotFound)
  }

  /** The routes ask for a role in the team, and for owner or admin before anything becomes shared or a default. */
  lemma RoutesRefuse(views: Views, c: Caller, r: Request, newId: Id, now: nat)
    ensures c.role == None ==> Write(views, c, r, newId, now) == (views, Forbidden)
    ensures c.role == Some(Member) || c.role == Some(Viewer) ==>
      && (r.Create? && (r.shared || r.isDefault) ==> Write(views, c, r, newId, now) == (views, Forbidden))
      && (r.Update? && (r.change.shared == Some(true) || r.change.isDefault == Some(true)) ==>
            Write(views, c, r, newId, now) == (views, Forbidden))
    ensures r.Create? && c.role.Some? && (c.role.value in {Owner, Admin} || (!r.shared && !r.isDefault)) ==>
      Write(views, c, r, newId, now).1 ==
        Full(newId, View(c.team, Some(c.user), r.name, r.shared, r.isDefault, r.definition, now))
  {
  }

  /** Owners and admins have every right of the other roles: they are the ones who manage shared views. */
  lemma ManagersAre(c: Caller)
    ensures Manager(c) <==> c.role == Some(Owner) || c.role == Some(Admin)
  {
  }

  predicate Listable(v: View, team: Id, user: Id) { v.team == team && (v.shared || v.owner == Some(user)) }

  predicate NoLaterThan(a: View, b: View) { if a.isDefault == b.isDefault then a.updated >= b.updated else a.isDefault }

  /** What the database may answer to the list query: each view the caller may read once, defaults
      first, then the latest; the order of equals is its own. */
  ghost predicate IsListing(views: Views, team: Id, user: Id, rows: seq<(Id, View)>) {
    && (forall r <- rows :: r.0 in views && r.1 == views[r.0] && Listable(r.1, team, user))
    && (forall i <- views :: Listable(views[i], team, user) ==> (i, views[i]) in rows)
    && (forall a, b :: 0 <= a < b < |rows| ==> rows[a].0 != rows[b].0 && NoLaterThan(rows[a].1, rows[b].1))
  }

  /** One request served: the tables before and after, and the answer. */
  ghost predicate Step(views: Views, c: Caller, r: Request, newId: Id, now: nat, after: Views, response: Response) {
    if r.List? && c.role.Some?
    then after == views && response.Listed? && IsListing(views, c.team, c.user, response.rows)
    else newId !in views && (after, response) == Write(views, c, r, newId, now)
  }

  /** A listing holds exactly the team's shared views and the user's own, each once, every default before every other
      view, and the later change first among those alike. */
  lemma ListingIs(views: Views, team: Id, user: Id, rows: seq<(Id, View)>, a: nat, b: nat, i: Id)
    requires IsListing(views, team, user, rows) && a < b < |rows|
    ensures rows[a].0 != rows[b].0 && (rows[b].1.isDefault ==> rows[a].1.isDefault)
    ensures rows[a].1.isDefault == rows[b].1.isDefault ==> rows[a].1.updated >= rows[b].1.updated
    ensures (exists v :: (i, v) in rows) <==>
      i in views && views[i].team == team && (views[i].shared || views[i].owner == Some(user))
  {
    if v :| (i, v) in rows {
      assert (i, v).0 in views;
    }
    if i in views && Listable(views[i], team, user) {
      assert (i, views[i]) in rows;
    }
  }
}
