/** The service as one request or one pass of the reaper sees it when nothing else runs in
    between (`App::provision`, `App::drop_session` and the reaper, src/main.rs). */
module Service {
  import opened Wrappers
  import opened Room
  import opened Indices
  import opened Ports
  import LockSteps

  /** One viewer's transport, as far as departures go: the session it belongs to, whether its
      data channel is open, and the agents whose departure was sent down it. */
  /** A transport nothing has happened to yet, for a session nothing has happened to yet. */
  predicate Untouched(t: Transport)
    reads t, t.session
  {
    && !t.channelOpen && t.notices == []
    && t.session.Controls() == NEW_CONTROL && t.session.inbound == [] && t.session.announced == {} && !t.session.closed
  }

  class Transport {
    const session: Session
    var channelOpen: bool
    var notices: seq<string>

    constructor (session: Session)
      ensures this.session == session && !channelOpen && notices == []
    {
      this.session := session;
      channelOpen, notices := false, [];
    }
  }

  datatype ChannelType = Local | MultiAgent

  /** A parsed provision request; an empty channel name or offer counts as absent. */
  datatype Request = Request(
    logout: bool, viewerSession: Option<string>, offer: Option<string>,
    channelType: Option<ChannelType>, parcel: int, channel: Option<string>)

  /** `userId` and `scene` come from the region. */
  datatype Params = Params(userId: string, scene: string, request: Request)

  datatype Refusal = NoViewerSession | NoOffer | AtCapacity | NoUserId | NoChannel | NotEstablished

  datatype Reply = LoggedOut(id: string) | Answer(id: string, sdp: string) | Refused(why: Refusal)

  /** No session of the agent is left in the room. */
  predicate HasLeft(live: map<string, Session>, room: RoomKey, agent: string) {
    forall id :: id in live ==> !(live[id].room == room && live[id].agentId == agent)
  }

  /** What the departure of a session makes the server send to a transport of this room. */
  function NoticeTo(room: RoomKey, open: bool, gone: Session, live: map<string, Session>): seq<string> {
    if room == gone.room && open && HasLeft(live, gone.room, gone.agentId) then [gone.agentId] else []
  }

  function RoomOf(p: Params): Option<RoomKey> {
    var req := p.request;
    if req.channelType == Some(MultiAgent) then
      if req.channel.Some? then Some(MultiAgentRoom(req.channel.value)) else None
    else Some(SpatialRoom(p.scene, req.parcel))
  }

  /** A departure is sent to the open channels of the room, and only once no session of the
      agent is left there. */
  lemma NoticeRule(room: RoomKey, open: bool, gone: Session, live: map<string, Session>)
    ensures NoticeTo(room, open, gone, live) == [] || NoticeTo(room, open, gone, live) == [gone.agentId]
    ensures NoticeTo(room, open, gone, live) != [] <==>
              && open && room == gone.room
              && forall k :: k in live ==> !(live[k].room == room && live[k].agentId == gone.agentId)
  {
  }

  function Named(viewerSession: Option<string>): set<string> {
    if viewerSession.None? then {} else {viewerSession.value}
  }

  /** The session a request does away with before anything else is decided. */
  function Dropped(p: Params): set<string> {
    if !p.request.logout && p.request.offer.None? then {} else Named(p.request.viewerSession)
  }

  lemma WithoutNothing<V>(table: map<string, V>)
    ensures table - {} == table
  {
  }

  ghost function Elements(ids: seq<string>): set<string> {
    set id | id in ids
  }

  lemma ElementsUpTo(ids: seq<string>, i: nat)
    requires i <= |ids| && Distinct(ids)
    ensures i == 0 ==> Elements(ids[..i]) == {}
    ensures i < |ids| ==>
              && ids[i] in Elements(ids) && ids[i] !in Elements(ids[..i])
              && Elements(ids[..i + 1]) == Elements(ids[..i]) + {ids[i]}
  {
    if i < |ids| {
      assert ids[..i + 1] == ids[..i] + [ids[i]];
    }
  }

  /** The departures a member of a room was told of, when the sessions `gone` were dropped one
      after the other and those in `live` are left: each agent of theirs in its room that has
      no session left there, once. */
  ghost predicate Told(notices: seq<string>, open: bool, room: RoomKey, all: map<string, Session>, gone: set<string>,
                       live: map<string, Session>)
  {
    && Distinct(notices)
    && forall a :: a in notices <==>
         && open && (forall k :: k in live ==> !(live[k].room == room && live[k].agentId == a))
         && exists d :: d in gone && d in all && all[d].room == room && all[d].agentId == a
  }

  lemma ToldOfOneMore(notices: seq<string>, open: bool, room: RoomKey, all: map<string, Session>, gone: set<string>,
                      live: map<string, Session>, id: string)
    requires Told(notices, open, room, all, gone, live)
    requires id in live && id in all && all[id] == live[id]
    ensures Told(notices + NoticeTo(room, open, all[id], live - {id}),
                 open, room, all, gone + {id}, live - {id})
  {
    var s := all[id];
    var live' := live - {id};
    assert !HasLeft(live, s.room, s.agentId) by {
      assert live[id].room == s.room && live[id].agentId == s.agentId;
    }
    assert forall k :: k in live && k != id ==> k in live' && live'[k] == live[k];
    forall a
      ensures HasLeft(live', room, a)
              <==> HasLeft(live, room, a) || (room == s.room && a == s.agentId && HasLeft(live', room, a))
    {
      if HasLeft(live', room, a) && !HasLeft(live, room, a) {
        var k :| k in live && live[k].room == room && live[k].agentId == a;
      }
    }
    hide HasLeft;
    if s.room == room && open && HasLeft(live', s.room, s.agentId) {
      assert s.agentId !in notices;
      DistinctAppend(notices, s.agentId);
    }
  }

  /** The same, where only what came after `start` counts. */
  ghost predicate ToldSince(start: seq<string>, notices: seq<string>, open: bool, room: RoomKey,
                            all: map<string, Session>, gone: set<string>, live: map<string, Session>)
  {
    start <= notices && Told(notices[|start|..], open, room, all, gone, live)
  }

  lemma ToldSinceOneMore(start: seq<string>, notices: seq<string>, open: bool, room: RoomKey, all: map<string, Session>,
                         gone: set<string>, live: map<string, Session>, id: string)
    requires ToldSince(start, notices, open, room, all, gone, live)
    requires id in live && id in all && all[id] == live[id]
    ensures ToldSince(start, notices + NoticeTo(room, open, all[id], live - {id}),
                      open, room, all, gone + {id}, live - {id})
  {
    hide Told, NoticeTo;
    ToldOfOneMore(notices[|start|..], open, room, all, gone, live, id);
    var more := NoticeTo(room, open, all[id], live - {id});
    assert (notices + more)[|start|..] == notices[|start|..] + more;
  }

  lemma ToldSinceStart(start: seq<string>, open: bool, room: RoomKey, all: map<string, Session>,
                       live: map<string, Session>)
    ensures ToldSince(start, start, open, room, all, {}, live)
  {
    assert start[|start|..] == [];
  }

  function Outcome(p: Params, others: nat, freshId: string, answer: Option<string>): Reply {
    var req := p.request;
    if req.logout then
      if req.viewerSession.None? then Refused(NoViewerSession) else LoggedOut(req.viewerSession.value)
    else if req.offer.None? then Refused(NoOffer)
    else ConnectOutcome(p, others, freshId, answer)
  }

  function ConnectOutcome(p: Params, others: nat, freshId: string, answer: Option<string>): Reply {
    if others >= LockSteps.MAX_SESSIONS then Refused(AtCapacity)
    else if p.userId == "" then Refused(NoUserId)
    else if RoomOf(p).None? then Refused(NoChannel)
    else if answer.None? then Refused(NotEstablished)
    else Answer(freshId, answer.value)
  }

  /** The session of the agent the region named, in the room the request asks for: of the
      channel for a group, and of the parcel, mixed spatially, for anything else. */
  predicate IsFor(s: Session, p: Params) {
    && s.agentId == p.userId != ""
    && (p.request.channelType == Some(MultiAgent) ==>
          p.request.channel.Some? && s.room == MultiAgentRoom(p.request.channel.value) && !s.spatial)
    && (p.request.channelType != Some(MultiAgent) ==> s.room == SpatialRoom(p.scene, p.request.parcel) && s.spatial)
  }

  predicate IsNewFor(t: Transport, p: Params)
    reads t, t.session
  {
    IsFor(t.session, p) && Untouched(t)
  }

  lemma RoomIs(p: Params)
    ensures p.request.channelType != Some(MultiAgent) ==> RoomOf(p) == Some(SpatialRoom(p.scene, p.request.parcel))
    ensures p.request.channelType == Some(MultiAgent) && p.request.channel.Some? ==>
              RoomOf(p) == Some(MultiAgentRoom(p.request.channel.value))
    ensures p.request.channelType == Some(MultiAgent) && p.request.channel.None? ==> RoomOf(p) == None
  {
  }

  /** Which requests lead to one room: the same channel, or the same parcel of the same region,
      and a session is in the spatial mix exactly when its room is a parcel's. */
  lemma SameRoom(p: Params, q: Params)
    requires RoomOf(p).Some? && RoomOf(q).Some?
    ensures RoomOf(p) == RoomOf(q) <==>
              if p.request.channelType == Some(MultiAgent)
              then q.request.channelType == Some(MultiAgent) && p.request.channel == q.request.channel
              else
                && q.request.channelType != Some(MultiAgent)
                && p.scene == q.scene && p.request.parcel == q.request.parcel
    ensures RoomOf(p).value.SpatialRoom? <==> p.request.channelType != Some(MultiAgent)
  {
  }

  /** When a request gets which answer, case by case. */
  lemma AnswersOfRequests(p: Params, others: nat, freshId: string, answer: Option<string>)
    ensures var r, req := Outcome(p, others, freshId, answer), p.request;
            var asks := !req.logout && req.offer.Some?;
            var admitted := asks && others < 900 && p.userId != "";
            var placed := admitted && (req.channelType == Some(MultiAgent) ==> req.channel.Some?);
            && (r.LoggedOut? <==> req.logout && req.viewerSession.Some?)
            && (r.LoggedOut? ==> Some(r.id) == req.viewerSession)
            && (r == Refused(NoViewerSession) <==> req.logout && req.viewerSession.None?)
            && (r == Refused(NoOffer) <==> !req.logout && req.offer.None?)
            && (r == Refused(AtCapacity) <==> asks && others >= 900)
            && (r == Refused(NoUserId) <==> asks && others < 900 && p.userId == "")
            && (r == Refused(NoChannel) <==> admitted && !placed)
            && (r == Refused(NotEstablished) <==> placed && answer.None?)
            && (r.Answer? <==> placed && answer.Some?)
            && (r.Answer? ==> r == Answer(freshId, answer.value))
  {
  }

  /** Which session a request ends: the one it names, if it logs out or carries an offer. */
  lemma EndedByRequest(p: Params, id: string)
    ensures id in Dropped(p) <==>
              p.request.viewerSession == Some(id) && (p.request.logout || p.request.offer.Some?)
  {
  }

  class App {
    const sessions: Registry
    const ports: PortPool
    var endpoints: map<string, Transport>

    /** Transports and registered sessions are the same ids, and each transport carries the
        session registered under its id. */
    ghost predicate Valid()
      reads this, sessions, ports
    {
      && sessions.Valid() && ports.Valid()
      && endpoints.Keys == sessions.bySession.Keys
      && forall id :: id in endpoints ==> endpoints[id].session == sessions.bySession[id]
    }

    constructor (lo: int, hi: int)
      requires 0 <= lo <= hi < U16 && hi - lo + 1 < U16
      ensures Valid() && endpoints == map[] && fresh(sessions) && fresh(ports)
    {
      sessions := new Registry();
      ports := new PortPool(lo, hi);
      endpoints := map[];
    }

    /** Whoever shares the room hears of the departure once the agent has no session left
        there, and nobody else hears anything. */
    method DropSession(id: string)
      requires Valid()
      modifies this`endpoints, sessions, sessions.bySession.Values`announced, sessions.bySession.Values`closed
      modifies endpoints.Values`notices
      ensures Valid()
      ensures endpoints == old(endpoints) - {id}
      ensures sessions.bySession == old(sessions.bySession) - {id}
      ensures sessions.byRoom == if id in old(endpoints)
                                 then Retained(old(sessions.byRoom), old(endpoints)[id].session.room, id)
                                 else old(sessions.byRoom)
      ensures id in old(endpoints) ==> old(endpoints)[id].session.closed
      ensures forall k :: k in endpoints ==>
                endpoints[k].notices == old(endpoints[k].notices) +
                  (if id in old(endpoints)
                   then NoticeTo(endpoints[k].session.room, endpoints[k].channelOpen, old(endpoints)[id].session,
                                 sessions.bySession)
                   else [])
      ensures forall k :: k in endpoints ==> endpoints[k].session.closed == old(endpoints[k].session.closed)
      ensures forall k :: k in endpoints ==>
                endpoints[k].session.announced == old(endpoints[k].session.announced) -
                  (if id in old(endpoints) then {old(endpoints)[id].session.agentId} else {})
    {
      hide Valid, NoticeTo, Retained;
      var gone := Withdraw(id);
      if gone.Some? {
        AnnounceDeparture(gone.value);
      }
    }

    /** The transport leaves the table and the session the registry. */
    method Withdraw(id: string) returns (gone: Option<Session>)
      requires Valid()
      modifies this`endpoints, sessions, sessions.bySession.Values`announced, sessions.bySession.Values`closed
      ensures Valid()
      ensures gone == if id in old(endpoints) then Some(old(endpoints)[id].session) else None
      ensures endpoints == old(endpoints) - {id}
      ensures sessions.bySession == old(sessions.bySession) - {id}
      ensures sessions.byRoom == if id in old(endpoints)
                                 then Retained(old(sessions.byRoom), old(endpoints)[id].session.room, id)
                                 else old(sessions.byRoom)
      ensures id in old(endpoints) ==> old(endpoints)[id].session.closed
      ensures forall k :: k in endpoints ==> endpoints[k].session.closed == old(endpoints[k].session.closed)
      ensures forall k :: k in endpoints ==>
                endpoints[k].session.announced == old(endpoints[k].session.announced) -
                  (if gone.Some? then {gone.value.agentId} else {})
    {
      hide Registry.Valid, PortPool.Valid, Retained, Agree;
      endpoints := endpoints - {id};
      gone := sessions.Remove(id);
    }

    /** Before a tick, every session whose transport died is dropped and no other; and each
        survivor whose channel is open hears once of every agent that thereby left its room. */
    method ReapDead()
      requires Valid()
      modifies this`endpoints, sessions, sessions.bySession.Values`announced, sessions.bySession.Values`closed
      modifies endpoints.Values`notices
      ensures Valid()
      ensures endpoints == old(endpoints) - old(Dead())
      ensures forall k :: k in endpoints ==>
                ToldSince(old(endpoints[k].notices), endpoints[k].notices, endpoints[k].channelOpen,
                          endpoints[k].session.room, old(sessions.bySession), old(Dead()), sessions.bySession)
    {
      hide Valid, ToldSince;
      var dead := DeadOnes();
      DropAll(dead);
    }

    method DropAll(dead: seq<string>)
      requires Valid() && Distinct(dead) && Elements(dead) <= endpoints.Keys
      modifies this`endpoints, sessions, sessions.bySession.Values`announced, sessions.bySession.Values`closed
      modifies endpoints.Values`notices
      ensures Valid() && Informed(old(Notices()), old(sessions.bySession), Elements(dead))
      ensures endpoints == old(endpoints) - Elements(dead)
    {
      hide *;
      ghost var start := Notices();
      ghost var all := sessions.bySession;
      InformedFirst();
      ElementsUpTo(dead, 0);
      for i := 0 to |dead|
        invariant Valid()
        invariant endpoints == old(endpoints) - Elements(dead[..i])
        invariant endpoints.Values <= old(endpoints.Values) && sessions.bySession.Values <= all.Values
        invariant sessions.bySession == all - Elements(dead[..i])
        invariant Informed(start, all, Elements(dead[..i]))
      {
        ElementsUpTo(dead, i);
        DropNext(dead[i], start, all, Elements(dead[..i]));
      }
      assert dead[..|dead|] == dead;
    }

    ghost function Notices(): map<string, seq<string>>
      reads this, endpoints.Values
    {
      map k | k in endpoints :: endpoints[k].notices
    }

    /** Every member of every room has been told what it should be about the sessions `gone`. */
    ghost predicate Informed(start: map<string, seq<string>>, all: map<string, Session>, gone: set<string>)
      reads this, sessions, endpoints.Values
    {
      forall k :: k in endpoints ==>
        k in start && ToldSince(start[k], endpoints[k].notices, endpoints[k].channelOpen, endpoints[k].session.room,
                                all, gone, sessions.bySession)
    }

    lemma InformedFirst()
      ensures Informed(Notices(), sessions.bySession, {})
    {
      hide ToldSince;
      forall k | k in endpoints
        ensures ToldSince(endpoints[k].notices, endpoints[k].notices, endpoints[k].channelOpen,
                          endpoints[k].session.room, sessions.bySession, {}, sessions.bySession)
      {
        ToldSinceStart(endpoints[k].notices, endpoints[k].channelOpen, endpoints[k].session.room,
                       sessions.bySession, sessions.bySession);
      }
    }

    method DropNext(id: string, ghost start: map<string, seq<string>>, ghost all: map<string, Session>,
                    ghost gone: set<string>)
      requires Valid() && Informed(start, all, gone)
      requires id in endpoints && sessions.bySession == all - gone
      modifies this`endpoints, sessions, sessions.bySession.Values`announced, sessions.bySession.Values`closed
      modifies endpoints.Values`notices
      ensures Valid() && Informed(start, all, gone + {id})
      ensures endpoints == old(endpoints) - {id}
      ensures sessions.bySession == old(sessions.bySession) - {id}
    {
      hide Registry.Valid, PortPool.Valid, ToldSince, NoticeTo, Retained;
      forall k | k in endpoints
        ensures var room, open := endpoints[k].session.room, endpoints[k].channelOpen;
                ToldSince(start[k], endpoints[k].notices + NoticeTo(room, open, all[id], sessions.bySession - {id}),
                          open, room, all, gone + {id}, sessions.bySession - {id})
      {
        ToldSinceOneMore(start[k], endpoints[k].notices, endpoints[k].channelOpen, endpoints[k].session.room,
                         all, gone, sessions.bySession, id);
      }
      hide Valid;
      DropSession(id);
    }

    ghost function Dead(): set<string>
      reads this, endpoints.Values, set t | t in endpoints.Values :: t.session
    {
      set id | id in endpoints && endpoints[id].session.closed
    }

    method DeadOnes() returns (dead: seq<string>)
      ensures Distinct(dead) && Dead() == Elements(dead)
    {
      dead := [];
      var todo := endpoints.Keys;
      while todo != {}
        invariant todo <= endpoints.Keys
        invariant Distinct(dead)
        invariant forall id :: id in dead <==> id in endpoints && id !in todo && endpoints[id].session.closed
        decreases todo
      {
        var id :| id in todo;
        if endpoints[id].session.closed {
          DistinctAppend(dead, id);
          dead := dead + [id];
        }
        todo := todo - {id};
      }
    }

    /** A provision request. The new id is a fresh UUID; `answer` is the SDP answer, absent when
        the transport could not be established. Whatever becomes of the request, the session
        it renegotiates or ends is gone first; and it adds a session only below the ceiling,
        for the agent and the scene the region named. */
    method Provision(p: Params, freshId: string, answer: Option<string>) returns (reply: Reply)
      requires Valid() && freshId !in sessions.bySession
      modifies this`endpoints, sessions, sessions.bySession.Values`announced, sessions.bySession.Values`closed
      modifies endpoints.Values`notices, ports
      ensures Valid()
      ensures reply == Outcome(p, |old(sessions.bySession) - Dropped(p)|, freshId, answer)
      ensures !reply.Answer? ==>
                sessions.bySession == old(sessions.bySession) - Dropped(p) && endpoints == old(endpoints) - Dropped(p)
      ensures reply.Answer? ==>
                && freshId in endpoints && IsNewFor(endpoints[freshId], p)
                && endpoints == (old(endpoints) - Dropped(p))[freshId := endpoints[freshId]]
                && sessions.bySession == (old(sessions.bySession) - Dropped(p))[freshId := endpoints[freshId].session]
      ensures ports.takes == old(ports.takes) + (if reply.Answer? || reply == Refused(NotEstablished) then 1 else 0)
      ensures |old(sessions.bySession)| <= LockSteps.MAX_SESSIONS ==> |sessions.bySession| <= LockSteps.MAX_SESSIONS
    {
      hide Valid, RoomOf, ConnectOutcome, Named, IsNewFor;
      WithoutNothing(sessions.bySession);
      WithoutNothing(endpoints);
      var req := p.request;
      if req.logout {
        reply := LogOut(req.viewerSession);
        return;
      }
      if req.offer.None? {
        return Refused(NoOffer);
      }
      DropOld(req.viewerSession);
      reply := Connect(p, freshId, answer);
    }

    /** The part of a request that asks for a new session. */
    method Connect(p: Params, freshId: string, answer: Option<string>) returns (reply: Reply)
      requires Valid() && freshId !in sessions.bySession
      modifies this`endpoints, sessions, ports
      ensures Valid()
      ensures reply == ConnectOutcome(p, |old(sessions.bySession)|, freshId, answer)
      ensures !reply.Answer? ==> sessions.bySession == old(sessions.bySession) && endpoints == old(endpoints)
      ensures reply.Answer? ==>
                && freshId in endpoints && IsNewFor(endpoints[freshId], p)
                && endpoints == old(endpoints)[freshId := endpoints[freshId]]
                && sessions.bySession == old(sessions.bySession)[freshId := endpoints[freshId].session]
                && |sessions.bySession| <= LockSteps.MAX_SESSIONS
      ensures ports.takes == old(ports.takes) + (if reply.Answer? || reply == Refused(NotEstablished) then 1 else 0)
    {
      hide Valid, RoomOf, Untouched;
      RoomIs(p);
      if sessions.SessionCount() >= LockSteps.MAX_SESSIONS {
        return Refused(AtCapacity);
      }
      if p.userId == "" {
        return Refused(NoUserId);
      }
      var room := RoomOf(p);
      if room.None? {
        return Refused(NoChannel);
      }
      reply := Admit(p.userId, room.value, p.request.channelType != Some(MultiAgent), freshId, answer);
    }

    method LogOut(viewerSession: Option<string>) returns (reply: Reply)
      requires Valid()
      modifies this`endpoints, sessions, sessions.bySession.Values`announced, sessions.bySession.Values`closed
      modifies endpoints.Values`notices
      ensures Valid()
      ensures reply == if viewerSession.None? then Refused(NoViewerSession) else LoggedOut(viewerSession.value)
      ensures sessions.bySession == old(sessions.bySession) - Named(viewerSession)
      ensures endpoints == old(endpoints) - Named(viewerSession)
      ensures |sessions.bySession| <= |old(sessions.bySession)|
    {
      if viewerSession.None? {
        return Refused(NoViewerSession);
      }
      FewerSessions(sessions.bySession, viewerSession.value);
      DropSession(viewerSession.value);
      return LoggedOut(viewerSession.value);
    }

    /** A renegotiation does away with the old transport first. */
    method DropOld(viewerSession: Option<string>)
      requires Valid()
      modifies this`endpoints, sessions, sessions.bySession.Values`announced, sessions.bySession.Values`closed
      modifies endpoints.Values`notices
      ensures Valid()
      ensures sessions.bySession == old(sessions.bySession) - Named(viewerSession)
      ensures endpoints == old(endpoints) - Named(viewerSession)
      ensures |sessions.bySession| <= |old(sessions.bySession)|
    {
      if viewerSession.Some? && viewerSession.value in endpoints {
        FewerSessions(sessions.bySession, viewerSession.value);
        DropSession(viewerSession.value);
      }
    }

    /** A new session gets its port before its transport is tried, and enters both tables only
        if that works. */
    method Admit(userId: string, room: RoomKey, spatial: bool, freshId: string, answer: Option<string>)
      returns (reply: Reply)
      requires Valid() && freshId !in sessions.bySession
      modifies this`endpoints, sessions, ports
      ensures Valid() && ports.takes == old(ports.takes) + 1
      ensures reply == if answer.None? then Refused(NotEstablished) else Answer(freshId, answer.value)
      ensures answer.None? ==> sessions.bySession == old(sessions.bySession) && endpoints == old(endpoints)
      ensures answer.Some? ==>
                && freshId in endpoints && endpoints == old(endpoints)[freshId := endpoints[freshId]]
                && Untouched(endpoints[freshId])
      ensures |sessions.bySession| == |old(sessions.bySession)| + (if answer.Some? then 1 else 0)
      ensures answer.Some? ==>
                && freshId in sessions.bySession
                && sessions.bySession == old(sessions.bySession)[freshId := endpoints[freshId].session]
                && sessions.bySession[freshId].room == room && sessions.bySession[freshId].agentId == userId
                && sessions.bySession[freshId].spatial == spatial
    {
      hide Registry.Valid;
      var sess := new Session(freshId, userId, room, spatial);
      var port := ports.Take();
      if answer.None? {
        return Refused(NotEstablished);
      }
      Enter(sess);
      return Answer(freshId, answer.value);
    }

    /** A session whose transport is up enters both tables. */
    method Enter(sess: Session)
      requires Valid() && sess.id !in sessions.bySession
      modifies this`endpoints, sessions
      ensures Valid() && sessions.bySession == old(sessions.bySession)[sess.id := sess]
      ensures sess.id in endpoints && endpoints == old(endpoints)[sess.id := endpoints[sess.id]]
      ensures !endpoints[sess.id].channelOpen && endpoints[sess.id].notices == []
      ensures |sessions.bySession| == |old(sessions.bySession)| + 1
    {
      hide Registry.Valid, PortPool.Valid, Listed;
      OneMoreSession(sessions.bySession, sess);
      var ep := new Transport(sess);
      endpoints := endpoints[sess.id := ep];
      sessions.Insert(sess);
    }

    method AnnounceDeparture(gone: Session)
      requires Valid()
      modifies endpoints.Values`notices
      ensures Valid()
      ensures forall k :: k in endpoints ==>
                endpoints[k].notices == old(endpoints[k].notices) +
                  NoticeTo(endpoints[k].session.room, endpoints[k].channelOpen, gone, sessions.bySession)
    {
      hide Resolved, ListOf, Agree, PortPool.Valid;
      var remaining := sessions.Members(gone.room);
      var stillPresent := exists m :: m in remaining && m.agentId == gone.agentId;
      LeftWhenNoneRemains(sessions.bySession, gone, remaining);
      hide HasLeft;
      if !stillPresent {
        Broadcast(remaining, gone.agentId);
      }
    }

    method Broadcast(remaining: seq<Session>, agent: string)
      requires Distinct(remaining)
      requires forall k :: k in endpoints ==> endpoints[k].session.id == k
      requires forall m :: m in remaining && m.id in endpoints ==> endpoints[m.id].session == m
      modifies endpoints.Values`notices
      ensures forall k :: k in endpoints ==>
                endpoints[k].notices == old(endpoints[k].notices) +
                  (if endpoints[k].session in remaining && endpoints[k].channelOpen then [agent] else [])
    {
      for i := 0 to |remaining|
        invariant forall k :: k in endpoints ==>
                    endpoints[k].notices == old(endpoints[k].notices) +
                      (if endpoints[k].session in remaining[..i] && endpoints[k].channelOpen then [agent] else [])
      {
        var m := remaining[i];
        assert remaining[..i + 1] == remaining[..i] + [m];
        assert m !in remaining[..i];
        if m.id in endpoints {
          var ep := endpoints[m.id];
          if ep.channelOpen {
            ep.notices := ep.notices + [agent];
          }
        }
      }
      assert remaining[..|remaining|] == remaining;
    }
  }

  lemma LeftWhenNoneRemains(live: map<string, Session>, gone: Session, remaining: seq<Session>)
    requires forall s :: s in remaining <==> s in live.Values && s.room == gone.room
    ensures HasLeft(live, gone.room, gone.agentId) <==> !exists m :: m in remaining && m.agentId == gone.agentId
  {
    if !HasLeft(live, gone.room, gone.agentId) {
      var id :| id in live && live[id].room == gone.room && live[id].agentId == gone.agentId;
      assert live[id] in remaining;
    }
  }

  lemma FewerSessions(live: map<string, Session>, id: string)
    ensures |live - {id}| <= |live|
  {
    assert (live - {id}).Keys == live.Keys - {id};
  }

  lemma OneMoreSession(live: map<string, Session>, s: Session)
    requires s.id !in live
    ensures |live[s.id := s]| == |live| + 1
  {
    assert live[s.id := s].Keys == live.Keys + {s.id};
  }
}
