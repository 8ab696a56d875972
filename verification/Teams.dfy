/** Teams, rooms, membership, grants and the scope index of fleet-teams. */
module Teams {
  import opened Prelude
  import Strings

  type AgentId = string
  type Id = string

  datatype Mask = Mask(read: bool, post: bool, join: bool)
  datatype PartialMask = PartialMask(read: Option<bool>, post: Option<bool>, join: Option<bool>)
  datatype Grant = Read | Post | Join

  const ALL: Mask := Mask(true, true, true)
  const NONE: Mask := Mask(false, false, false)

  datatype Team = Team(id: Id, name: string, createdAt: int, defaultGrants: Mask, memberIds: seq<AgentId>)

  datatype Room = Room(
    id: Id, teamId: Id, name: string, scope: string, createdAt: int, grants: Option<Mask>,
    overrides: map<AgentId, PartialMask>, memberIds: seq<AgentId>)

  /** Teams, rooms, the index from scopes to rooms, and the shared id counter. */
  datatype Org = Org(teams: map<Id, Team>, rooms: map<Id, Room>, scopes: map<string, Id>, serial: nat)

  const EMPTY: Org := Org(map[], map[], map[], 0)

  datatype TeamsError = NoName | NoActor | NoTeam | NoRoom | NotTeamMember | NotRoomMember | NoJoinGrant | ScopeTaken

  function TeamId(n: nat): Id {
    "team-" + Strings.Decimal(n)
  }

  function RoomId(n: nat): Id {
    "room-" + Strings.Decimal(n)
  }

  lemma IdsUnique(n: nat, m: nat)
    ensures TeamId(n) == TeamId(m) <==> n == m
    ensures RoomId(n) == RoomId(m) <==> n == m
  {
    Strings.DecimalValue(n);
    Strings.DecimalValue(m);
    assert TeamId(n)[5..] == Strings.Decimal(n) && TeamId(m)[5..] == Strings.Decimal(m);
    assert RoomId(n)[5..] == Strings.Decimal(n) && RoomId(m)[5..] == Strings.Decimal(m);
  }

  // ---- grants ----

  function Pick(given: Option<bool>, otherwise: bool): bool {
    if given.Some? then given.value else otherwise
  }

  function EffectiveGrants(o: Org, agentId: AgentId, roomId: Id): Mask {
    if roomId !in o.rooms then NONE
    else
      var room := o.rooms[roomId];
      if room.teamId !in o.teams || agentId !in o.teams[room.teamId].memberIds then NONE
      else
        var base := if room.grants.Some? then room.grants.value else o.teams[room.teamId].defaultGrants;
        if agentId !in room.overrides then base
        else
          var over := room.overrides[agentId];
          Mask(Pick(over.read, base.read), Pick(over.post, base.post), Pick(over.join, base.join))
  }

  function Can(o: Org, agentId: AgentId, roomId: Id, grant: Grant): bool {
    var mask := EffectiveGrants(o, agentId, roomId);
    match grant
    case Read => mask.read
    case Post => mask.post
    case Join => mask.join
  }

  /** What `post`, `readMemory` and `appendMemory` check. */
  predicate Admitted(o: Org, agentId: AgentId, roomId: Id, grant: Grant) {
    roomId in o.rooms && agentId in o.rooms[roomId].memberIds && Can(o, agentId, roomId, grant)
  }

  // ---- the verbs on an organisation ----

  function CreateTeamIn(o: Org, name: string, grants: Option<Mask>, actor: AgentId, now: int): Result<Org, TeamsError> {
    if name == "" then Err(NoName)
    else if actor == "" then Err(NoActor)
    else
      var id := TeamId(o.serial + 1);
      Ok(o.(teams := o.teams[id := Team(id, name, now, if grants.Some? then grants.value else ALL, [actor])],
            serial := o.serial + 1))
  }

  function JoinTeamIn(o: Org, teamId: Id, agentId: AgentId): Result<Org, TeamsError> {
    if teamId !in o.teams then Err(NoTeam)
    else if agentId == "" then Err(NoActor)
    else if agentId in o.teams[teamId].memberIds then Ok(o)
    else Ok(o.(teams := o.teams[teamId := o.teams[teamId].(memberIds := o.teams[teamId].memberIds + [agentId])]))
  }

  /** Leaving a team is leaving all its rooms. */
  function LeaveTeamIn(o: Org, teamId: Id, agentId: AgentId): Result<Org, TeamsError> {
    if teamId !in o.teams then Err(NoTeam)
    else if agentId !in o.teams[teamId].memberIds then Ok(o)
    else
      Ok(o.(teams := o.teams[teamId := o.teams[teamId].(memberIds := Drop(o.teams[teamId].memberIds, agentId))],
            rooms := RoomsWithout(o.rooms, teamId, agentId)))
  }

  function RoomsWithout(rooms: map<Id, Room>, teamId: Id, agentId: AgentId): map<Id, Room> {
    map id | id in rooms :: if rooms[id].teamId == teamId then
      rooms[id].(memberIds := Drop(rooms[id].memberIds, agentId)) else rooms[id]
  }

  /** The id counter moves even when the scope turns out to be taken. */
  function CreateRoomIn(o: Org, teamId: Id, name: string, scope: Option<string>, grants: Option<Mask>, actor: AgentId,
          now: int): (Org, Result<Id, TeamsError>) {
    if teamId !in o.teams then (o, Err(NoTeam))
    else if name == "" then (o, Err(NoName))
    else if actor == "" then (o, Err(NoActor))
    else if actor !in o.teams[teamId].memberIds then (o, Err(NotTeamMember))
    else
      var id := RoomId(o.serial + 1);
      var key := if scope.Some? then scope.value else "room:" + id;
      if key in o.scopes then (o.(serial := o.serial + 1), Err(ScopeTaken))
      else
        (o.(rooms := o.rooms[id := Room(id, teamId, name, key, now, grants, map[], [])], scopes := o.scopes[key := id],
            serial := o.serial + 1), Ok(id))
  }

  function JoinRoomIn(o: Org, roomId: Id, agentId: AgentId): Result<Org, TeamsError> {
    if roomId !in o.rooms then Err(NoRoom)
    else if o.rooms[roomId].teamId !in o.teams || agentId !in o.teams[o.rooms[roomId].teamId].memberIds then
      Err(NotTeamMember)
    else if !Can(o, agentId, roomId, Join) then Err(NoJoinGrant)
    else if agentId in o.rooms[roomId].memberIds then Ok(o)
    else Ok(o.(rooms := o.rooms[roomId := o.rooms[roomId].(memberIds := o.rooms[roomId].memberIds + [agentId])]))
  }

  function LeaveRoomIn(o: Org, roomId: Id, agentId: AgentId): Result<Org, TeamsError> {
    if roomId !in o.rooms then Err(NoRoom)
    else Ok(o.(rooms := o.rooms[roomId := o.rooms[roomId].(memberIds := Drop(o.rooms[roomId].memberIds, agentId))]))
  }

  function SetTeamGrantsIn(o: Org, teamId: Id, grants: Mask, actor: AgentId): Result<Org, TeamsError> {
    if teamId !in o.teams then Err(NoTeam)
    else if actor !in o.teams[teamId].memberIds then Err(NotTeamMember)
    else Ok(o.(teams := o.teams[teamId := o.teams[teamId].(defaultGrants := grants)]))
  }

  function Merged(kept: PartialMask, given: PartialMask): PartialMask {
    PartialMask(if given.read.Some? then given.read else kept.read, if given.post.Some? then given.post else kept.post,
                if given.join.Some? then given.join else kept.join)
  }

  function SetRoomGrantsIn(o: Org, roomId: Id, grants: Option<Mask>, overrides: map<AgentId, PartialMask>,
          actor: AgentId): Result<Org, TeamsError> {
    if roomId !in o.rooms then Err(NoRoom)
    else if actor !in o.rooms[roomId].memberIds then Err(NotRoomMember)
    else
      var room := o.rooms[roomId];
      Ok(o.(rooms := o.rooms[roomId := room.(grants := if grants.Some? then grants else room.grants,
                                             overrides := MergedOverrides(room.overrides, overrides))]))
  }

  function MergedOverrides(kept: map<AgentId, PartialMask>,
          given: map<AgentId, PartialMask>): map<AgentId, PartialMask> {
    map a | a in kept.Keys + given.Keys ::
      if a !in given then kept[a] else if a in kept then Merged(kept[a], given[a]) else given[a]
  }

  // ---- scopes ----

  datatype Resolution = ToRoom(roomId: Id, teamId: Id) | ToTeam(teamId: Id) | Unresolved

  function ValidateScope(o: Org, scope: string): Resolution {
    if scope == "" then Unresolved
    else
      var roomPrefix, teamPrefix := Strings.StartsWith(scope, "room:"), Strings.StartsWith(scope, "team:");
      var candidate := if roomPrefix || teamPrefix then scope[5..] else scope;
      var roomId := if scope in o.scopes then Some(o.scopes[scope])
        else if candidate in o.rooms then Some(o.rooms[candidate].id) else None;
      if (roomPrefix || !teamPrefix) && roomId.Some? && roomId.value in o.rooms then
        ToRoom(o.rooms[roomId.value].id, o.rooms[roomId.value].teamId)
      else if teamPrefix && candidate in o.teams then ToTeam(o.teams[candidate].id)
      else Unresolved
  }

  // ---- what every organisation keeps ----

  predicate Distinct(ids: seq<AgentId>) {
    forall i, j :: 0 <= i < j < |ids| ==> ids[i] != ids[j]
  }

  ghost predicate TeamKept(o: Org, id: Id)
    requires id in o.teams
  {
    o.teams[id].id == id && Distinct(o.teams[id].memberIds) && exists n: nat :: n <= o.serial && id == TeamId(n)
  }

  /** A room's members are distinct members of its team, and the scope index leads to the room. */
  ghost predicate RoomKept(o: Org, id: Id)
    requires id in o.rooms
  {
    var room := o.rooms[id];
    && room.id == id && room.teamId in o.teams && Distinct(room.memberIds)
    && (forall a :: a in room.memberIds ==> a in o.teams[room.teamId].memberIds)
    && room.scope in o.scopes && o.scopes[room.scope] == id
    && exists n: nat :: n <= o.serial && id == RoomId(n)
  }

  ghost predicate Kept(o: Org) {
    && (forall id :: id in o.teams ==> TeamKept(o, id))
    && (forall id :: id in o.rooms ==> RoomKept(o, id))
    && (forall s :: s in o.scopes ==> o.scopes[s] in o.rooms && o.rooms[o.scopes[s]].scope == s)
  }

  lemma DropDistinct(ids: seq<AgentId>, x: AgentId)
    requires Distinct(ids)
    ensures Distinct(Drop(ids, x)) && forall y :: y in Drop(ids, x) <==> y in ids && y != x
  {
    DropKeeps(ids, x, set y | y in ids);
  }

  datatype Verb =
    | CreateTeam(name: string, grants: Option<Mask>, actor: AgentId, now: int)
    | JoinTeam(teamId: Id, agentId: AgentId)
    | LeaveTeam(teamId: Id, agentId: AgentId)
    | CreateRoom(teamId: Id, name: string, scope: Option<string>, grants: Option<Mask>, actor: AgentId, now: int)
    | JoinRoom(roomId: Id, agentId: AgentId)
    | LeaveRoom(roomId: Id, agentId: AgentId)
    | SetTeamGrants(teamId: Id, mask: Mask, actor: AgentId)
    | SetRoomGrants(roomId: Id, grants: Option<Mask>, overrides: map<AgentId, PartialMask>, actor: AgentId)

  function OkOr(r: Result<Org, TeamsError>, o: Org): Org {
    if r.Ok? then r.value else o
  }

  function Step(o: Org, v: Verb): Org {
    match v
    case CreateTeam(name, grants, actor, now) => OkOr(CreateTeamIn(o, name, grants, actor, now), o)
    case JoinTeam(teamId, agentId) => OkOr(JoinTeamIn(o, teamId, agentId), o)
    case LeaveTeam(teamId, agentId) => OkOr(LeaveTeamIn(o, teamId, agentId), o)
    case CreateRoom(teamId, name, scope, grants, actor, now) =>
      CreateRoomIn(o, teamId, name, scope, grants, actor, now).0
    case JoinRoom(roomId, agentId) => OkOr(JoinRoomIn(o, roomId, agentId), o)
    case LeaveRoom(roomId, agentId) => OkOr(LeaveRoomIn(o, roomId, agentId), o)
    case SetTeamGrants(teamId, mask, actor) => OkOr(SetTeamGrantsIn(o, teamId, mask, actor), o)
    case SetRoomGrants(roomId, grants, overrides, actor) =>
      OkOr(SetRoomGrantsIn(o, roomId, grants, overrides, actor), o)
  }

  lemma CreateTeamKeeps(o: Org, name: string, grants: Option<Mask>, actor: AgentId, now: int)
    requires Kept(o)
    ensures Kept(OkOr(CreateTeamIn(o, name, grants, actor, now), o))
  {
    hide TeamId, RoomId;
    var r := OkOr(CreateTeamIn(o, name, grants, actor, now), o);
    if r != o {
      var id := TeamId(o.serial + 1);
      assert id !in o.teams by {
        if id in o.teams {
          assert TeamKept(o, id);
          var n: nat :| n <= o.serial && id == TeamId(n);
          IdsUnique(n, o.serial + 1);
        }
      }
      forall x | x in r.teams ensures TeamKept(r, x) { assert x != id ==> TeamKept(o, x); }
      forall x | x in r.rooms ensures RoomKept(r, x) { assert RoomKept(o, x); }
    }
  }

  lemma JoinTeamKeeps(o: Org, teamId: Id, agentId: AgentId)
    requires Kept(o)
    ensures Kept(OkOr(JoinTeamIn(o, teamId, agentId), o))
  {
    hide TeamId, RoomId;
    var r := OkOr(JoinTeamIn(o, teamId, agentId), o);
    forall x | x in r.teams ensures TeamKept(r, x) { assert TeamKept(o, x); }
    forall x | x in r.rooms ensures RoomKept(r, x) { assert RoomKept(o, x); }
  }

  lemma LeaveTeamKeeps(o: Org, teamId: Id, agentId: AgentId)
    requires Kept(o)
    ensures Kept(OkOr(LeaveTeamIn(o, teamId, agentId), o))
  {
    hide TeamId, RoomId, Drop;
    var r := OkOr(LeaveTeamIn(o, teamId, agentId), o);
    forall x | x in r.teams ensures TeamKept(r, x) {
      assert TeamKept(o, x);
      DropDistinct(o.teams[x].memberIds, agentId);
    }
    forall x | x in r.rooms ensures RoomKept(r, x) {
      assert RoomKept(o, x);
      DropDistinct(o.rooms[x].memberIds, agentId);
      DropDistinct(o.teams[o.rooms[x].teamId].memberIds, agentId);
    }
  }

  lemma CreateRoomKeeps(o: Org, teamId: Id, name: string, scope: Option<string>, grants: Option<Mask>, actor: AgentId,
          now: int)
    requires Kept(o)
    ensures Kept(CreateRoomIn(o, teamId, name, scope, grants, actor, now).0)
  {
    hide RoomId, Kept;
    var id := RoomId(o.serial + 1);
    var key := if scope.Some? then scope.value else "room:" + id;
    SerialMoves(o);
    if teamId in o.teams && key !in o.scopes {
      AddRoomKeeps(o, Room(id, teamId, name, key, now, grants, map[], []));
    }
  }

  lemma SerialMoves(o: Org)
    requires Kept(o)
    ensures Kept(o.(serial := o.serial + 1))
  {
    hide TeamId, RoomId, Distinct;
    var r := o.(serial := o.serial + 1);
    forall x | x in r.teams ensures TeamKept(r, x) { assert TeamKept(o, x); }
    forall x | x in r.rooms ensures RoomKept(r, x) { assert RoomKept(o, x); }
  }

  lemma AddRoomKeeps(o: Org, room: Room)
    requires Kept(o) && room.id == RoomId(o.serial + 1) && room.teamId in o.teams && room.memberIds == []
    requires room.scope !in o.scopes
    ensures Kept(o.(rooms := o.rooms[room.id := room], scopes := o.scopes[room.scope := room.id],
                    serial := o.serial + 1))
  {
    hide TeamId, RoomId;
    assert room.id !in o.rooms by {
      if room.id in o.rooms {
        assert RoomKept(o, room.id);
        var n: nat :| n <= o.serial && room.id == RoomId(n);
        IdsUnique(n, o.serial + 1);
      }
    }
    var r := o.(rooms := o.rooms[room.id := room], scopes := o.scopes[room.scope := room.id], serial := o.serial + 1);
    forall x | x in r.teams ensures TeamKept(r, x) { assert TeamKept(o, x); }
    forall x | x in r.rooms ensures RoomKept(r, x) { assert x != room.id ==> RoomKept(o, x); }
  }

  lemma OneRoomKeeps(o: Org, roomId: Id, room: Room)
    requires Kept(o) && roomId in o.rooms && Distinct(room.memberIds)
    requires room.id == roomId && room.teamId == o.rooms[roomId].teamId && room.scope == o.rooms[roomId].scope
    requires forall a :: a in room.memberIds ==>
               a in o.rooms[roomId].memberIds || (room.teamId in o.teams && a in o.teams[room.teamId].memberIds)
    ensures Kept(o.(rooms := o.rooms[roomId := room]))
  {
    hide TeamId, RoomId;
    var r := o.(rooms := o.rooms[roomId := room]);
    forall x | x in r.teams ensures TeamKept(r, x) { assert TeamKept(o, x); }
    forall x | x in r.rooms ensures RoomKept(r, x) { assert RoomKept(o, x); }
  }

  lemma StepKeeps(o: Org, v: Verb)
    requires Kept(o)
    ensures Kept(Step(o, v))
  {
    hide TeamId, RoomId, Drop, CreateTeamIn, JoinTeamIn, LeaveTeamIn, CreateRoomIn, Kept;
    match v
    case CreateTeam(name, grants, actor, now) => CreateTeamKeeps(o, name, grants, actor, now);
    case JoinTeam(teamId, agentId) => JoinTeamKeeps(o, teamId, agentId);
    case LeaveTeam(teamId, agentId) => LeaveTeamKeeps(o, teamId, agentId);
    case CreateRoom(teamId, name, scope, grants, actor, now) =>
      CreateRoomKeeps(o, teamId, name, scope, grants, actor, now);
    case SetTeamGrants(teamId, mask, actor) => SetTeamGrantsKeeps(o, teamId, mask, actor);
    case JoinRoom(roomId, agentId) =>
      if roomId in o.rooms {
        RoomFacts(o, roomId);
        OneRoomKeeps(o, roomId, OkOr(JoinRoomIn(o, roomId, agentId), o).rooms[roomId]);
        assert o.rooms[roomId := o.rooms[roomId]] == o.rooms;
      }
    case LeaveRoom(roomId, agentId) =>
      if roomId in o.rooms {
        RoomFacts(o, roomId);
        DropDistinct(o.rooms[roomId].memberIds, agentId);
        OneRoomKeeps(o, roomId, o.rooms[roomId].(memberIds := Drop(o.rooms[roomId].memberIds, agentId)));
      }
    case SetRoomGrants(roomId, grants, overrides, actor) =>
      if roomId in o.rooms {
        RoomFacts(o, roomId);
        OneRoomKeeps(o, roomId, OkOr(SetRoomGrantsIn(o, roomId, grants, overrides, actor), o).rooms[roomId]);
        assert o.rooms[roomId := o.rooms[roomId]] == o.rooms;
      }
  }

  lemma RoomFacts(o: Org, roomId: Id)
    requires Kept(o) && roomId in o.rooms
    ensures o.rooms[roomId].id == roomId && Distinct(o.rooms[roomId].memberIds)
  {
    assert RoomKept(o, roomId);
  }

  lemma SetTeamGrantsKeeps(o: Org, teamId: Id, mask: Mask, actor: AgentId)
    requires Kept(o)
    ensures Kept(OkOr(SetTeamGrantsIn(o, teamId, mask, actor), o))
  {
    hide TeamId, RoomId;
    var r := OkOr(SetTeamGrantsIn(o, teamId, mask, actor), o);
    forall x | x in r.teams ensures TeamKept(r, x) { assert TeamKept(o, x); }
    forall x | x in r.rooms ensures RoomKept(r, x) { assert RoomKept(o, x); }
  }

  function After(o: Org, verbs: seq<Verb>): Org
    decreases |verbs|
  {
    if verbs == [] then o else After(Step(o, verbs[0]), verbs[1..])
  }

  lemma {:induction false} RunKeeps(o: Org, verbs: seq<Verb>)
    requires Kept(o)
    ensures Kept(After(o, verbs))
    decreases |verbs|
  {
    hide Kept, Step;
    if verbs != [] {
      StepKeeps(o, verbs[0]);
      RunKeeps(Step(o, verbs[0]), verbs[1..]);
    }
  }

  /**
   * Over any run: room members are distinct members of the room's team, the scope index is the exact inverse of
   * the rooms' scopes.
   */
  lemma MembersAndScopes(verbs: seq<Verb>)
    ensures var o := After(EMPTY, verbs);
            && (forall id :: id in o.rooms ==>
                  && o.rooms[id].teamId in o.teams && Distinct(o.rooms[id].memberIds)
                  && forall a :: a in o.rooms[id].memberIds ==> a in o.teams[o.rooms[id].teamId].memberIds)
            && (forall s, id :: s in o.scopes && o.scopes[s] == id <==> id in o.rooms && o.rooms[id].scope == s)
  {
    hide After;
    RunKeeps(EMPTY, verbs);
    var o := After(EMPTY, verbs);
    forall id | id in o.rooms ensures RoomKept(o, id) {
    }
  }

  predicate InTeamOf(o: Org, agentId: AgentId, roomId: Id) {
    roomId in o.rooms && o.rooms[roomId].teamId in o.teams && agentId in o.teams[o.rooms[roomId].teamId].memberIds
  }

  /** Who is not in the team is in none of its rooms and holds no grant there, whatever the overrides say. */
  lemma OutsidersHoldNothing(verbs: seq<Verb>, agentId: AgentId, roomId: Id)
    ensures var o := After(EMPTY, verbs);
            !InTeamOf(o, agentId, roomId) ==>
              && EffectiveGrants(o, agentId, roomId) == NONE
              && (roomId in o.rooms ==> agentId !in o.rooms[roomId].memberIds)
              && forall grant :: !Admitted(o, agentId, roomId, grant)
  {
    hide After;
    MembersAndScopes(verbs);
  }

  /** Leaving a team takes the agent out of all its rooms at once and leaves every other membership alone. */
  lemma LeavingTeamLeavesRooms(verbs: seq<Verb>, teamId: Id, agentId: AgentId, roomId: Id, other: AgentId)
    requires roomId in After(EMPTY, verbs).rooms && teamId in After(EMPTY, verbs).teams
    ensures var o := After(EMPTY, verbs);
            var r := Step(o, LeaveTeam(teamId, agentId));
            && roomId in r.rooms
            && (other in r.rooms[roomId].memberIds <==>
                  other in o.rooms[roomId].memberIds && !(other == agentId && o.rooms[roomId].teamId == teamId))
  {
    hide After, Drop;
    RunKeeps(EMPTY, verbs);
    var o := After(EMPTY, verbs);
    assert RoomKept(o, roomId);
    DropDistinct(o.rooms[roomId].memberIds, agentId);
  }

  /** The scope of a room resolves back to that room exactly when it is non-empty and does not begin with "team:". */
  lemma ScopeResolvesBack(verbs: seq<Verb>, roomId: Id)
    requires roomId in After(EMPTY, verbs).rooms
    ensures var o := After(EMPTY, verbs);
            var scope := o.rooms[roomId].scope;
            ValidateScope(o, scope) == ToRoom(roomId, o.rooms[roomId].teamId)
            <==> scope != "" && !Strings.StartsWith(scope, "team:")
  {
    hide After, Strings.StartsWith;
    RunKeeps(EMPTY, verbs);
    var o := After(EMPTY, verbs);
    assert RoomKept(o, roomId);
    NotBothPrefixes(o.rooms[roomId].scope);
  }

  lemma NotBothPrefixes(scope: string)
    ensures !(Strings.StartsWith(scope, "room:") && Strings.StartsWith(scope, "team:"))
    ensures Strings.StartsWith(scope, "room:") || Strings.StartsWith(scope, "team:") ==> |scope| >= 5
  {
    assert Strings.StartsWith(scope, "room:") ==> |scope| >= 5 && scope[..5] == "room:" && scope[0] == 'r';
    assert Strings.StartsWith(scope, "team:") ==> |scope| >= 5 && scope[..5] == "team:" && scope[0] == 't';
  }

  // ---- the service ----

  class FleetTeams {
    var teams: map<Id, Team>
    var rooms: map<Id, Room>
    var scopeToRoom: map<string, Id>
    var serial: nat

    /** The organisation the fields hold. */
    function Contents(): Org
      reads this
    {
      Org(teams, rooms, scopeToRoom, serial)
    }

    constructor ()
      ensures Contents() == EMPTY && Kept(Contents())
    {
      teams := map[];
      rooms := map[];
      scopeToRoom := map[];
      serial := 0;
    }

    method CreateNewTeam(name: string, grants: Option<Mask>, actor: AgentId, now: int)
      returns (r: Result<Team, TeamsError>)
      requires Kept(Contents())
      modifies this
      ensures Kept(Contents()) && Contents() == Step(old(Contents()), CreateTeam(name, grants, actor, now))
      ensures r.Ok? <==> name != "" && actor != ""
      ensures r.Ok? ==>
                && r.value.id in teams && r.value.id !in old(teams) && teams[r.value.id] == r.value
                && r.value.memberIds == [actor]
    {
      StepKeeps(Contents(), CreateTeam(name, grants, actor, now));
      if |name| == 0 { return Err(NoName); }
      if |actor| == 0 { return Err(NoActor); }
      NextTeamIsNew(Contents());
      serial := serial + 1;
      var team := Team(TeamId(serial), name, now, if grants.Some? then grants.value else ALL, [actor]);
      teams := teams[team.id := team];
      return Ok(team);
    }

    method Join(teamId: Id, agentId: AgentId) returns (r: Result<Team, TeamsError>)
      requires Kept(Contents())
      modifies this`teams
      ensures Kept(Contents()) && Contents() == Step(old(Contents()), JoinTeam(teamId, agentId))
      ensures r.Ok? <==> teamId in old(teams) && agentId != ""
      ensures r.Ok? ==> r.value == teams[teamId] && agentId in r.value.memberIds
    {
      StepKeeps(Contents(), JoinTeam(teamId, agentId));
      if teamId !in teams { return Err(NoTeam); }
      if |agentId| == 0 { return Err(NoActor); }
      var team := teams[teamId];
      if agentId !in team.memberIds {
        team := team.(memberIds := team.memberIds + [agentId]);
        teams := teams[teamId := team];
      }
      return Ok(team);
    }

    method Leave(teamId: Id, agentId: AgentId) returns (r: Result<bool, TeamsError>)
      requires Kept(Contents())
      modifies this`teams, this`rooms
      ensures Kept(Contents()) && Contents() == Step(old(Contents()), LeaveTeam(teamId, agentId))
      ensures r == if teamId !in old(teams) then Err(NoTeam) else Ok(agentId in old(teams)[teamId].memberIds)
    {
      hide Kept, Drop;
      StepKeeps(Contents(), LeaveTeam(teamId, agentId));
      if teamId !in teams { return Err(NoTeam); }
      var team := teams[teamId];
      if agentId !in team.memberIds { return Ok(false); }
      teams := teams[teamId := team.(memberIds := Drop(team.memberIds, agentId))];
      ghost var before, left := rooms, teams;
      var rest := rooms.Keys;
      while rest != {}
        invariant teams == left
        invariant rest <= before.Keys && rooms.Keys == before.Keys
        invariant forall id :: id in before ==>
                    rooms[id] == if id !in rest && before[id].teamId == teamId
                                 then before[id].(memberIds := Drop(before[id].memberIds, agentId)) else before[id]
      {
        HasText(rest);
        var id :| id in rest;
        rest := rest - {id};
        if rooms[id].teamId == teamId {
          rooms := rooms[id := rooms[id].(memberIds := Drop(rooms[id].memberIds, agentId))];
        }
      }
      assert rooms == RoomsWithout(before, teamId, agentId);
      return Ok(true);
    }

    method CreateNewRoom(teamId: Id, name: string, scope: Option<string>, grants: Option<Mask>, actor: AgentId,
            now: int)
      returns (r: Result<Id, TeamsError>)
      requires Kept(Contents())
      modifies this`rooms, this`scopeToRoom, this`serial
      ensures Kept(Contents())
      ensures (Contents(), r) == CreateRoomIn(old(Contents()), teamId, name, scope, grants, actor, now)
    {
      hide Kept;
      StepKeeps(Contents(), CreateRoom(teamId, name, scope, grants, actor, now));
      if teamId !in teams { return Err(NoTeam); }
      if |name| == 0 { return Err(NoName); }
      if |actor| == 0 { return Err(NoActor); }
      if actor !in teams[teamId].memberIds { return Err(NotTeamMember); }
      serial := serial + 1;
      var id := RoomId(serial);
      var key := if scope.Some? then scope.value else "room:" + id;
      if key in scopeToRoom { return Err(ScopeTaken); }
      rooms := rooms[id := Room(id, teamId, name, key, now, grants, map[], [])];
      scopeToRoom := scopeToRoom[key := id];
      return Ok(id);
    }

    method EnterRoom(roomId: Id, agentId: AgentId) returns (r: Result<Room, TeamsError>)
      requires Kept(Contents())
      modifies this`rooms
      ensures Kept(Contents()) && Contents() == Step(old(Contents()), JoinRoom(roomId, agentId))
      ensures r.Ok? <==> JoinRoomIn(old(Contents()), roomId, agentId).Ok?
      ensures r.Ok? ==> r.value == rooms[roomId] && agentId in r.value.memberIds
    {
      hide Kept;
      StepKeeps(Contents(), JoinRoom(roomId, agentId));
      if roomId !in rooms { return Err(NoRoom); }
      var room := rooms[roomId];
      if room.teamId !in teams || agentId !in teams[room.teamId].memberIds { return Err(NotTeamMember); }
      if !Can(Contents(), agentId, roomId, Grant.Join) { return Err(NoJoinGrant); }
      if agentId !in room.memberIds {
        room := room.(memberIds := room.memberIds + [agentId]);
        rooms := rooms[roomId := room];
      }
      return Ok(room);
    }

    method QuitRoom(roomId: Id, agentId: AgentId) returns (r: Result<bool, TeamsError>)
      requires Kept(Contents())
      modifies this`rooms
      ensures Kept(Contents()) && Contents() == Step(old(Contents()), LeaveRoom(roomId, agentId))
      ensures r == if roomId !in old(rooms) then Err(NoRoom) else Ok(agentId in old(rooms)[roomId].memberIds)
    {
      hide Kept;
      StepKeeps(Contents(), LeaveRoom(roomId, agentId));
      if roomId !in rooms { return Err(NoRoom); }
      var room := rooms[roomId];
      if agentId !in room.memberIds {
        DropAbsent(room.memberIds, agentId);
        assert rooms[roomId := room] == rooms;
        return Ok(false);
      }
      rooms := rooms[roomId := room.(memberIds := Drop(room.memberIds, agentId))];
      return Ok(true);
    }

    method SetTeamDefaultGrants(teamId: Id, grants: Mask, actor: AgentId) returns (r: Result<Team, TeamsError>)
      requires Kept(Contents())
      modifies this`teams
      ensures Kept(Contents()) && Contents() == Step(old(Contents()), SetTeamGrants(teamId, grants, actor))
      ensures r.Ok? <==> teamId in old(teams) && actor in old(teams)[teamId].memberIds
      ensures r.Ok? ==> r.value == teams[teamId]
    {
      hide Kept;
      StepKeeps(Contents(), SetTeamGrants(teamId, grants, actor));
      if teamId !in teams { return Err(NoTeam); }
      if actor !in teams[teamId].memberIds { return Err(NotTeamMember); }
      teams := teams[teamId := teams[teamId].(defaultGrants := grants)];
      return Ok(teams[teamId]);
    }

    method SetGrantsOfRoom(roomId: Id, grants: Option<Mask>, overrides: map<AgentId, PartialMask>, actor: AgentId)
      returns (r: Result<Room, TeamsError>)
      requires Kept(Contents())
      modifies this`rooms
      ensures Kept(Contents()) && Contents() == Step(old(Contents()), SetRoomGrants(roomId, grants, overrides, actor))
      ensures r.Ok? <==> roomId in old(rooms) && actor in old(rooms)[roomId].memberIds
      ensures r.Ok? ==> r.value == rooms[roomId]
    {
      hide Kept, Merged;
      StepKeeps(Contents(), SetRoomGrants(roomId, grants, overrides, actor));
      if roomId !in rooms { return Err(NoRoom); }
      var room := rooms[roomId];
      if actor !in room.memberIds { return Err(NotRoomMember); }
      if grants.Some? { room := room.(grants := grants); }
      var merged := MergeOverrides(room.overrides, overrides);
      rooms := rooms[roomId := room.(overrides := merged)];
      return Ok(rooms[roomId]);
    }
  }

  /** Merges each given override over the one the room holds. */
  method MergeOverrides(kept: map<AgentId, PartialMask>, given: map<AgentId, PartialMask>)
    returns (merged: map<AgentId, PartialMask>)
    ensures merged == MergedOverrides(kept, given)
  {
    hide Merged;
    merged := kept;
    var rest := given.Keys;
    while rest != {}
      invariant rest <= given.Keys && merged.Keys == kept.Keys + (given.Keys - rest)
      invariant forall a :: a in merged ==>
                  merged[a] == if a !in given || a in rest then kept[a] else if a in kept then Merged(kept[a], given[a])
                    else given[a]
    {
      HasText(rest);
      var agentId :| agentId in rest;
      rest := rest - {agentId};
      merged := merged[agentId := if agentId in merged then Merged(merged[agentId], given[agentId])
                       else given[agentId]];
    }
  }

  lemma NextTeamIsNew(o: Org)
    requires Kept(o)
    ensures TeamId(o.serial + 1) !in o.teams
  {
    hide TeamId, RoomId;
    var id := TeamId(o.serial + 1);
    if id in o.teams {
      assert TeamKept(o, id);
      var n: nat :| n <= o.serial && id == TeamId(n);
      IdsUnique(n, o.serial + 1);
    }
  }

  lemma {:induction false} DropAbsent(ids: seq<AgentId>, x: AgentId)
    requires x !in ids
    ensures Drop(ids, x) == ids
  {
    if ids != [] {
      assert ids == [ids[0]] + ids[1..];
      DropAbsent(ids[1..], x);
    }
  }
}
