/** Who may do what in a room, and where scopes lead. */
module TeamLaws {
  import opened Prelude
  import opened Teams
  import Strings

  function Given(mask: PartialMask, grant: Grant): Option<bool> {
    match grant
    case Read => mask.read
    case Post => mask.post
    case Join => mask.join
  }

  function Allows(mask: Mask, grant: Grant): bool {
    match grant
    case Read => mask.read
    case Post => mask.post
    case Join => mask.join
  }

  /** What an override says of one grant of an agent, if anything. */
  function Override(o: Org, agentId: AgentId, roomId: Id, grant: Grant): Option<bool>
    requires roomId in o.rooms
  {
    var overrides := o.rooms[roomId].overrides;
    if agentId in overrides then Given(overrides[agentId], grant) else None
  }

  /** What the room says to everybody, or its team where the room says nothing. */
  function Default(o: Org, roomId: Id, grant: Grant): bool
    requires roomId in o.rooms && o.rooms[roomId].teamId in o.teams
  {
    var room := o.rooms[roomId];
    if room.grants.Some? then Allows(room.grants.value, grant) else Allows(o.teams[room.teamId].defaultGrants, grant)
  }

  predicate Teammate(o: Org, agentId: AgentId, roomId: Id) {
    roomId in o.rooms && o.rooms[roomId].teamId in o.teams && agentId in o.teams[o.rooms[roomId].teamId].memberIds
  }

  /**
   * A grant holds for team members only, and for them by the agent's override,
   * else the room's mask, else the team's.
   */
  lemma GrantedExactly(o: Org, agentId: AgentId, roomId: Id, grant: Grant)
    ensures Can(o, agentId, roomId, grant) <==>
              Teammate(o, agentId, roomId) && Or(Override(o, agentId, roomId, grant), Default(o, roomId, grant))
    ensures Admitted(o, agentId, roomId, grant) <==>
              && Teammate(o, agentId, roomId) && agentId in o.rooms[roomId].memberIds
              && Or(Override(o, agentId, roomId, grant), Default(o, roomId, grant))
  {
  }

  /** Entering a room takes team membership and the join grant; it adds the agent and nobody else. */
  lemma EnteredExactly(o: Org, roomId: Id, agentId: AgentId)
    ensures JoinRoomIn(o, roomId, agentId).Ok? <==>
              Teammate(o, agentId, roomId) && Or(Override(o, agentId, roomId, Join), Default(o, roomId, Join))
    ensures JoinRoomIn(o, roomId, agentId).Ok? ==>
              var r := JoinRoomIn(o, roomId, agentId).value;
              && r.rooms.Keys == o.rooms.Keys && r.teams == o.teams && r.scopes == o.scopes
              && forall id, a :: id in o.rooms ==>
                   (a in r.rooms[id].memberIds <==> a in o.rooms[id].memberIds || (id == roomId && a == agentId))
  {
  }

  predicate Member(o: Org, teamId: Id, agentId: AgentId) {
    teamId in o.teams && agentId in o.teams[teamId].memberIds
  }

  predicate Inside(o: Org, roomId: Id, agentId: AgentId) {
    roomId in o.rooms && agentId in o.rooms[roomId].memberIds
  }

  /** Who is in a team after any step: who was, but for the one who leaves, and the one who joins or founds it. */
  lemma TeamMembersExactly(o: Org, v: Verb, id: Id, agentId: AgentId)
    requires Kept(o)
    ensures Member(Step(o, v), id, agentId) <==>
              match v
              case CreateTeam(_, _, actor, _) =>
                Member(o, id, agentId) || (id in Step(o, v).teams && id !in o.teams && agentId == actor)
              case JoinTeam(teamId, a) =>
                Member(o, id, agentId) || (id == teamId && id in o.teams && agentId == a && a != "")
              case LeaveTeam(teamId, a) => Member(o, id, agentId) && !(id == teamId && agentId == a)
              case _ => Member(o, id, agentId)
  {
    hide TeamId, RoomId, Drop, RoomsWithout, Merged;
    FreshIds(o);
    if id in o.teams {
      assert TeamKept(o, id);
      if v.LeaveTeam? { DropDistinct(o.teams[id].memberIds, v.agentId); }
    }
  }

  /** Who is in a room after any step: entering takes the join grant, and leaving the team leaves its rooms. */
  lemma RoomMembersExactly(o: Org, v: Verb, id: Id, agentId: AgentId)
    requires Kept(o)
    ensures Inside(Step(o, v), id, agentId) <==>
              match v
              case JoinRoom(roomId, a) =>
                || Inside(o, id, agentId)
                || (&& id == roomId && agentId == a
                    && Teammate(o, a, id) && Or(Override(o, a, id, Join), Default(o, id, Join)))
              case LeaveRoom(roomId, a) => Inside(o, id, agentId) && !(id == roomId && agentId == a)
              case LeaveTeam(teamId, a) => Inside(o, id, agentId) && !(agentId == a && o.rooms[id].teamId == teamId)
              case _ => Inside(o, id, agentId)
  {
    hide TeamId, RoomId, Drop, Merged, TeamKept, Distinct, Default, Override;
    FreshIds(o);
    if v.JoinRoom? { EnteredExactly(o, v.roomId, v.agentId); }
    if id in o.rooms {
      assert RoomKept(o, id);
      if v.LeaveTeam? || v.LeaveRoom? { DropDistinct(o.rooms[id].memberIds, v.agentId); }
    }
  }

  lemma FreshIds(o: Org)
    requires Kept(o)
    ensures TeamId(o.serial + 1) !in o.teams && RoomId(o.serial + 1) !in o.rooms
  {
    hide TeamId, RoomId, Distinct;
    var t, r := TeamId(o.serial + 1), RoomId(o.serial + 1);
    if t in o.teams {
      assert TeamKept(o, t);
      var n: nat :| n <= o.serial && t == TeamId(n);
      IdsUnique(n, o.serial + 1);
    }
    if r in o.rooms {
      assert RoomKept(o, r);
      var n: nat :| n <= o.serial && r == RoomId(n);
      IdsUnique(n, o.serial + 1);
    }
  }

  /** A new room of a team: open as its own mask says, or its team's, with no overrides and nobody in it. */
  lemma NewRoomIs(o: Org, teamId: Id, name: string, scope: Option<string>, grants: Option<Mask>, actor: AgentId,
          now: int)
    requires CreateRoomIn(o, teamId, name, scope, grants, actor, now).1.Ok?
    ensures var (r, id) := CreateRoomIn(o, teamId, name, scope, grants, actor, now);
            && id.value in r.rooms && r.teams == o.teams && r.rooms.Keys == o.rooms.Keys + {id.value}
            && var room := r.rooms[id.value];
               && room.teamId == teamId && room.name == name && room.memberIds == []
               && (scope.Some? ==> room.scope == scope.value)
               && (forall agentId, grant ::
                     agentId in o.teams[teamId].memberIds ==>
                       Can(r, agentId, id.value, grant)
                       == Allows(if grants.Some? then grants.value else o.teams[teamId].defaultGrants, grant))
  {
    hide RoomId;
  }

  /** A new team: its creator alone, open as its mask says, or fully. */
  lemma NewTeamIs(o: Org, name: string, grants: Option<Mask>, actor: AgentId, now: int)
    requires CreateTeamIn(o, name, grants, actor, now).Ok?
    ensures var r, id := CreateTeamIn(o, name, grants, actor, now).value, TeamId(o.serial + 1);
            && id in r.teams && r.rooms == o.rooms && r.teams.Keys == o.teams.Keys + {id}
            && r.teams[id].name == name && r.teams[id].memberIds == [actor]
            && forall grant :: Allows(r.teams[id].defaultGrants, grant)
                 == (grants.Some? ==> Allows(grants.value, grant))
  {
    hide TeamId;
  }

  /**
   * A new team mask governs all rooms of the team that have none of their own, but for overrides;
   * nothing else changes.
   */
  lemma TeamMaskGoverns(o: Org, teamId: Id, mask: Mask, actor: AgentId, agentId: AgentId, roomId: Id, grant: Grant)
    requires SetTeamGrantsIn(o, teamId, mask, actor).Ok?
    ensures var r := SetTeamGrantsIn(o, teamId, mask, actor).value;
            Can(r, agentId, roomId, grant) <==>
              if Teammate(o, agentId, roomId) && o.rooms[roomId].teamId == teamId && o.rooms[roomId].grants.None?
                 && Override(o, agentId, roomId, grant).None?
              then Allows(mask, grant) else Can(o, agentId, roomId, grant)
  {
  }

  /**
   * New grants of a room: what they say of an agent wins, where they say nothing its earlier override stays, and
   * for agents without one the new mask counts, if there is one. Other rooms are untouched.
   */
  lemma RoomGrantsGovern(o: Org, roomId: Id, grants: Option<Mask>, overrides: map<AgentId, PartialMask>, actor: AgentId,
          agentId: AgentId, other: Id, grant: Grant)
    requires SetRoomGrantsIn(o, roomId, grants, overrides, actor).Ok? && other in o.rooms
    ensures var r := SetRoomGrantsIn(o, roomId, grants, overrides, actor).value;
            Can(r, agentId, other, grant) <==>
              && Teammate(o, agentId, other)
              && if other != roomId then Can(o, agentId, other, grant)
                 else if agentId in overrides && Given(overrides[agentId], grant).Some? then
                   Given(overrides[agentId], grant).value
                 else if Override(o, agentId, roomId, grant).Some? then Override(o, agentId, roomId, grant).value
                 else if grants.Some? then Allows(grants.value, grant)
                 else Default(o, roomId, grant)
  {
  }

  // ---- scopes ----

  /**
   * Scopes that no room has for its own: "room:" and a room's id, or the id alone, lead to the room; "team:" and a
   * team's id to the team; everything else leads nowhere.
   */
  lemma ScopeLeadsExactly(verbs: seq<Verb>, scope: string)
    requires scope !in After(EMPTY, verbs).scopes
    ensures var o := After(EMPTY, verbs);
            ValidateScope(o, scope)
            == if Strings.StartsWith(scope, "team:") then
                 if scope[5..] in o.teams then ToTeam(scope[5..]) else Unresolved
               else
                 var id := if Strings.StartsWith(scope, "room:") then scope[5..] else scope;
                 if scope != "" && id in o.rooms then ToRoom(id, o.rooms[id].teamId) else Unresolved
  {
    hide After;
    RunKeeps(EMPTY, verbs);
    var o := After(EMPTY, verbs);
    NotBothPrefixes(scope);
    forall id | id in o.rooms ensures o.rooms[id].id == id { assert RoomKept(o, id); }
    forall id | id in o.teams ensures o.teams[id].id == id { assert TeamKept(o, id); }
  }
}
