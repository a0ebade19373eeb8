/** The two indices every lookup goes through (`Registry`, src/room.rs). */
module Indices {
  import opened Wrappers
  import opened Room

  type RoomIndex = map<RoomKey, seq<string>>

  function ListOf(byRoom: RoomIndex, room: RoomKey): seq<string> {
    if room in byRoom then byRoom[room] else []
  }

  function Listed(byRoom: RoomIndex, room: RoomKey, id: string): RoomIndex {
    byRoom[room := ListOf(byRoom, room) + [id]]
  }

  /** `retain(|m| m != id)` */
  function Without(ids: seq<string>, id: string): seq<string> {
    if ids == [] then []
    else
      var before := Without(ids[..|ids| - 1], id);
      if ids[|ids| - 1] != id then before + [ids[|ids| - 1]] else before
  }

  function Retained(byRoom: RoomIndex, room: RoomKey, id: string): RoomIndex {
    if room !in byRoom then byRoom
    else if Without(byRoom[room], id) == [] then byRoom - {room}
    else byRoom[room := Without(byRoom[room], id)]
  }

  /** The sessions that a list of ids still leads to. */
  function Resolved<S>(ids: seq<string>, bySession: map<string, S>): seq<S> {
    if ids == [] then []
    else
      var before, id := Resolved(ids[..|ids| - 1], bySession), ids[|ids| - 1];
      if id in bySession then before + [bySession[id]] else before
  }

  lemma {:induction false} WithoutMembers(ids: seq<string>, id: string)
    ensures forall x :: x in Without(ids, id) <==> x in ids && x != id
    ensures Distinct(ids) ==> Distinct(Without(ids, id))
    ensures id !in ids ==> Without(ids, id) == ids
  {
    if ids != [] {
      var before, last := ids[..|ids| - 1], ids[|ids| - 1];
      WithoutMembers(before, id);
      assert ids == before + [last];
      if Distinct(ids) {
        assert last !in before;
        var w := Without(before, id);
        assert last !in w;
      }
    }
  }

  /** Retaining goes through a list part by part and keeps its order. */
  lemma {:induction false} WithoutOfParts(a: seq<string>, b: seq<string>, id: string)
    ensures Without(a + b, id) == Without(a, id) + Without(b, id)
  {
    if b == [] {
      assert a + b == a;
    } else {
      assert (a + b)[..|a + b| - 1] == a + b[..|b| - 1];
      WithoutOfParts(a, b[..|b| - 1], id);
    }
  }

  /** So does looking the sessions of a list up. */
  lemma {:induction false} ResolvedOfParts<S>(a: seq<string>, b: seq<string>, bySession: map<string, S>)
    ensures Resolved(a + b, bySession) == Resolved(a, bySession) + Resolved(b, bySession)
  {
    if b == [] {
      assert a + b == a;
    } else {
      assert (a + b)[..|a + b| - 1] == a + b[..|b| - 1];
      ResolvedOfParts(a, b[..|b| - 1], bySession);
    }
  }

  lemma {:induction false} ResolvedMembers<S>(ids: seq<string>, bySession: map<string, S>)
    ensures forall id :: id in ids && id in bySession ==> bySession[id] in Resolved(ids, bySession)
    ensures forall s ::
              s in Resolved(ids, bySession) ==> exists id :: id in ids && id in bySession && bySession[id] == s
  {
    if ids != [] {
      var before, last := ids[..|ids| - 1], ids[|ids| - 1];
      ResolvedMembers(before, bySession);
      assert ids == before + [last];
      forall s | s in Resolved(ids, bySession)
        ensures exists id :: id in ids && id in bySession && bySession[id] == s
      {
        if s in Resolved(before, bySession) {
          var id :| id in before && id in bySession && bySession[id] == s;
          assert id in ids;
        } else {
          assert last in ids && last in bySession && bySession[last] == s;
        }
      }
    }
  }

  /** Every session is listed exactly once, in its own room; nothing else is listed, and no
      empty room is kept. */
  ghost predicate Agree(rooms: map<string, RoomKey>, byRoom: RoomIndex) {
    && (forall id :: id in rooms ==> id in ListOf(byRoom, rooms[id]))
    && (forall r :: r in byRoom ==> byRoom[r] != [] && Distinct(byRoom[r]))
    && (forall r, id :: r in byRoom && id in byRoom[r] ==> id in rooms && rooms[id] == r)
  }

  /** A new session is the last of its room, whatever else happens to the lists of the rooms:
      an arrival appends, a departure takes out one id, and no other room is touched. */
  lemma ListsKeepOrder(byRoom: RoomIndex, room: RoomKey, other: RoomKey, id: string)
    ensures ListOf(Listed(byRoom, room, id), room) == ListOf(byRoom, room) + [id]
    ensures ListOf(Retained(byRoom, room, id), room) == Without(ListOf(byRoom, room), id)
    ensures other != room ==>
              && ListOf(Listed(byRoom, room, id), other) == ListOf(byRoom, other)
              && ListOf(Retained(byRoom, room, id), other) == ListOf(byRoom, other)
  {
  }

  lemma InsertAgrees(rooms: map<string, RoomKey>, byRoom: RoomIndex, room: RoomKey, id: string)
    requires Agree(rooms, byRoom) && id !in rooms
    ensures Agree(rooms[id := room], Listed(byRoom, room, id))
  {
    var byRoom' := Listed(byRoom, room, id);
    assert id !in ListOf(byRoom, room);
    assert forall r :: r in byRoom' && r != room ==> byRoom'[r] == byRoom[r];
    assert forall x :: x in byRoom'[room] <==> x in ListOf(byRoom, room) || x == id;
  }

  lemma RemoveAgrees(rooms: map<string, RoomKey>, byRoom: RoomIndex, id: string)
    requires Agree(rooms, byRoom) && id in rooms
    ensures Agree(rooms - {id}, Retained(byRoom, rooms[id], id))
  {
    var room := rooms[id];
    assert id in byRoom[room];
    WithoutMembers(byRoom[room], id);
  }

  ghost function RoomsIn(live: map<string, Session>): map<string, RoomKey> {
    map id | id in live :: live[id].room
  }

  lemma RoomsInMore(live: map<string, Session>, s: Session)
    ensures RoomsIn(live[s.id := s]) == RoomsIn(live)[s.id := s.room]
  {
  }

  lemma RoomsInFewer(live: map<string, Session>, id: string)
    ensures RoomsIn(live - {id}) == RoomsIn(live) - {id}
  {
  }

  class Registry {
    var bySession: map<string, Session>
    var byRoom: RoomIndex

    ghost function Rooms(): map<string, RoomKey>
      reads this`bySession
    {
      RoomsIn(bySession)
    }

    ghost predicate Valid()
      reads this
    {
      (forall id :: id in bySession ==> bySession[id].id == id) && Agree(Rooms(), byRoom)
    }

    constructor ()
      ensures Valid() && bySession == map[] && byRoom == map[]
    {
      bySession, byRoom := map[], map[];
    }

    /** Ids are freshly drawn UUIDs. */
    method Insert(s: Session)
      requires Valid() && s.id !in bySession
      modifies this
      ensures Valid()
      ensures bySession == old(bySession)[s.id := s]
      ensures byRoom == Listed(old(byRoom), s.room, s.id)
    {
      InsertAgrees(Rooms(), byRoom, s.room, s.id);
      RoomsInMore(bySession, s);
      hide Agree, RoomsIn;
      byRoom := byRoom[s.room := (if s.room in byRoom then byRoom[s.room] else []) + [s.id]];
      bySession := bySession[s.id := s];
    }

    method Remove(id: string) returns (gone: Option<Session>)
      requires Valid()
      modifies this, bySession.Values`announced, bySession.Values`closed
      ensures Valid()
      ensures gone == if id in old(bySession) then Some(old(bySession)[id]) else None
      ensures bySession == old(bySession) - {id}
      ensures gone.None? ==> byRoom == old(byRoom)
      ensures gone.Some? ==> gone.value.closed && byRoom == Retained(old(byRoom), gone.value.room, id)
      ensures forall k :: k in bySession ==>
                bySession[k].announced ==
                  old(bySession[k].announced) - (if gone.Some? then {gone.value.agentId} else {})
      ensures forall k :: k in bySession ==> bySession[k].closed == old(bySession[k].closed)
      ensures gone.Some? ==> gone.value.announced == old(bySession[id].announced)
    {
      if id !in bySession {
        return None;
      }
      var s := bySession[id];
      RemoveAgrees(Rooms(), byRoom, id);
      RoomsInFewer(bySession, id);
      hide Agree, RoomsIn, Retained;
      bySession := bySession - {id};
      Unlist(s.room, id);
      ForgetEverywhere(s.agentId);
      s.closed := true;
      return Some(s);
    }

    method Unlist(room: RoomKey, id: string)
      modifies this`byRoom
      ensures byRoom == Retained(old(byRoom), room, id)
    {
      if room in byRoom {
        var members := Without(byRoom[room], id);
        byRoom := if members == [] then byRoom - {room} else byRoom[room := members];
      }
    }

    /** The agent leaves the announced set of every registered session. */
    method ForgetEverywhere(agent: string)
      modifies bySession.Values`announced
      ensures forall k :: k in bySession ==> bySession[k].announced == old(bySession[k].announced) - {agent}
    {
      var todo := bySession.Values;
      while todo != {}
        invariant todo <= bySession.Values
        invariant forall s :: s in todo ==> s.announced == old(s.announced)
        invariant forall s :: s in bySession.Values - todo ==> s.announced == old(s.announced) - {agent}
        decreases todo
      {
        var other :| other in todo;
        other.ForgetAnnounced(agent);
        todo := todo - {other};
      }
    }

    function SessionCount(): nat
      reads this`bySession
    {
      |bySession|
    }

    method Members(room: RoomKey) returns (members: seq<Session>)
      requires Valid()
      ensures members == Resolved(ListOf(byRoom, room), bySession)
      ensures forall s :: s in members <==> s in bySession.Values && s.room == room
      ensures Distinct(members)
    {
      hide Valid, Resolved, Distinct;
      ResolvedStep([], 0, bySession);
      members := [];
      if room in byRoom {
        var ids := byRoom[room];
        assert ids[..0] == [];
        for i := 0 to |ids|
          invariant members == Resolved(ids[..i], bySession)
        {
          ResolvedStep(ids, i, bySession);
          if ids[i] in bySession {
            members := members + [bySession[ids[i]]];
          }
        }
        assert ids[..|ids|] == ids;
      }
      MembersOf(room, members);
    }

    lemma MembersOf(room: RoomKey, members: seq<Session>)
      requires Valid() && members == Resolved(ListOf(byRoom, room), bySession)
      ensures Distinct(members)
      ensures forall s :: s in members <==> s in bySession.Values && s.room == room
    {
      hide Agree, Resolved;
      RoomMembers(room, members, bySession, Rooms(), byRoom);
    }
  }

  lemma ResolvedStep<S>(ids: seq<string>, i: nat, bySession: map<string, S>)
    ensures Resolved([], bySession) == []
    ensures i < |ids| ==>
              Resolved(ids[..i + 1], bySession) ==
                Resolved(ids[..i], bySession) + if ids[i] in bySession then [bySession[ids[i]]] else []
  {
    if i < |ids| {
      assert ids[..i + 1][..i] == ids[..i];
    }
  }

  lemma ListedAre(rooms: map<string, RoomKey>, byRoom: RoomIndex, room: RoomKey)
    requires Agree(rooms, byRoom)
    ensures Distinct(ListOf(byRoom, room))
    ensures forall id :: id in ListOf(byRoom, room) <==> id in rooms && rooms[id] == room
  {
  }

  lemma RoomMembers(room: RoomKey, members: seq<Session>, bySession: map<string, Session>, rooms: map<string, RoomKey>,
                    byRoom: RoomIndex)
    requires Agree(rooms, byRoom) && rooms.Keys == bySession.Keys
    requires forall id :: id in bySession ==> bySession[id].id == id && rooms[id] == bySession[id].room
    requires members == Resolved(ListOf(byRoom, room), bySession)
    ensures Distinct(members)
    ensures forall s :: s in members <==> s in bySession.Values && s.room == room
  {
    hide Agree, Resolved, ListOf;
    var ids := ListOf(byRoom, room);
    ListedAre(rooms, byRoom, room);
    ResolvedMembers(ids, bySession);
    ResolvedDistinct(ids, bySession);
    hide Distinct;
    forall s | s in bySession.Values && s.room == room
      ensures s in members
    {
      assert s.id in ids;
    }
    forall s | s in members
      ensures s in bySession.Values && s.room == room
    {
      var id :| id in ids && id in bySession && bySession[id] == s;
    }
  }

  lemma {:induction false} ResolvedDistinct(ids: seq<string>, bySession: map<string, Session>)
    requires Distinct(ids) && forall id :: id in bySession ==> bySession[id].id == id
    ensures var members := Resolved(ids, bySession);
            Distinct(members)
  {
    if ids != [] {
      var before, last := ids[..|ids| - 1], ids[|ids| - 1];
      ResolvedDistinct(before, bySession);
      ResolvedMembers(before, bySession);
      assert last !in before;
      if last in bySession {
        forall s | s in Resolved(before, bySession)
          ensures s != bySession[last]
        {
          var id :| id in before && id in bySession && bySession[id] == s;
          assert s.id == id;
        }
        DistinctAppend(Resolved(before, bySession), bySession[last]);
      }
    }
  }
}
