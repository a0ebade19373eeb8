/** Joins and leaves as the viewers see them: ticks, arrivals and departures as whole steps,
    with every roster and leave notice folded into what the viewer shows. */
module Announce {
  import opened Wrappers
  import opened Proto
  import opened Room
  import opened MixRoom

  // ---------------------------------------------------------------------------
  // Which joins survive in one roster
  // ---------------------------------------------------------------------------

  /** The agents a roster marks as joined. */
  function JoinsIn(roster: Option<Roster>): set<string> {
    if roster.None? then {} else set a | a in roster.value && roster.value[a].join.Some?
  }

  /** A later session of the same agent is audible, and its entry replaces the first one. */
  ghost predicate Masked(voices: seq<Voice>, agent: string) {
    exists i, j ::
      0 <= i < j < |voices| && voices[i].agentId == agent && voices[j].agentId == agent && voices[j].level != 0
  }

  lemma AgentsOf(voices: seq<Voice>, agent: string)
    ensures agent in Agents(voices) <==> exists i :: 0 <= i < |voices| && voices[i].agentId == agent
  {
    if agent in Agents(voices) {
      var v :| v in voices && v.agentId == agent;
    }
  }

  lemma MaskedStep(voices: seq<Voice>, agent: string)
    requires voices != []
    ensures var n := |voices| - 1;
            Masked(voices, agent) <==>
              Masked(voices[..n], agent) ||
              (voices[n].agentId == agent && voices[n].level != 0 && agent in Agents(voices[..n]))
  {
    var n := |voices| - 1;
    var before := voices[..n];
    AgentsOf(before, agent);
    if Masked(voices, agent) {
      var i, j :|
        0 <= i < j < |voices| && voices[i].agentId == agent && voices[j].agentId == agent && voices[j].level != 0;
      if j < n {
        assert before[i].agentId == agent && before[j].agentId == agent && before[j].level != 0;
      } else {
        assert before[i].agentId == agent;
      }
    }
    if Masked(before, agent) {
      var i, j :| 0 <= i < j < n && before[i].agentId == agent && before[j].agentId == agent && before[j].level != 0;
      assert voices[i].agentId == agent && voices[j].agentId == agent;
    }
    if voices[n].agentId == agent && voices[n].level != 0 && agent in Agents(before) {
      var i :| 0 <= i < n && before[i].agentId == agent;
      assert voices[i].agentId == agent;
    }
  }

  ghost predicate Joined(announced: set<string>, voices: seq<Voice>, agent: string) {
    var json := JsonOf(EntriesFor(announced, voices));
    agent in json && json[agent].join.Some?
  }

  lemma JsonStep(entries: seq<(string, RosterEntry)>, agent: string, e: RosterEntry)
    ensures JsonOf(entries + [(agent, e)]) == JsonOf(entries)[agent := ToJson(e)]
  {
    assert (entries + [(agent, e)])[..|entries|] == entries;
  }

  /** Exactly which joins a roster carries: those of the agents not announced before, except
      where a second, audible session of the agent follows in the same room. */
  lemma {:induction false} JoinDelivered(announced: set<string>, voices: seq<Voice>, agent: string)
    ensures Joined(announced, voices, agent) <==>
              agent !in announced && agent in Agents(voices) && !Masked(voices, agent)
  {
    if voices != [] {
      var n := |voices| - 1;
      var before, v := voices[..n], voices[n];
      JoinDelivered(announced, before, agent);
      MaskedStep(voices, agent);
      assert voices[..n + 1] == voices;
      AgentsGrow(voices, n);
      var joined := v.agentId !in announced + Agents(before);
      JsonStep(EntriesFor(announced, before), v.agentId, EntryOf(joined, v));
      hide Masked, JsonOf;
    }
  }

  lemma JoinsInRoster(announced: set<string>, voices: seq<Voice>)
    ensures forall a :: a in JoinsIn(RosterFor(announced, voices)) <==>
              a !in announced && a in Agents(voices) && !Masked(voices, a)
  {
    hide Masked, Agents;
    forall a
      ensures a in JoinsIn(RosterFor(announced, voices)) <==>
                a !in announced && a in Agents(voices) && !Masked(voices, a)
    {
      JoinDelivered(announced, voices, a);
      assert JsonOf([]) == map[];
    }
  }

  // ---------------------------------------------------------------------------
  // The protocol
  // ---------------------------------------------------------------------------

  /** One session as a listener; `view` is whom its viewer shows. */
  datatype Listener = Listener(agent: string, room: RoomKey, open: bool, announced: set<string>, view: set<string>)

  /** One session as it stands in a room's list. */
  datatype Seat = Seat(id: string, agent: string)

  /** `readings` are the room lists that ticks have read and not yet worked on. */
  datatype State = State(listeners: map<string, Listener>, readings: map<nat, seq<Seat>>)

  const INIT := State(map[], map[])

  datatype Action =
    | Insert(id: string, agent: string, room: RoomKey)
    | OpenChannel(id: string)
    | CloseChannel(id: string)
    | ReadRoom(t: nat, room: RoomKey, seats: seq<Seat>)
    | Tick(t: nat, voices: seq<Voice>)
    | Remove(id: string)

  function SeatsOf(listeners: map<string, Listener>, room: RoomKey): set<Seat> {
    set id | id in listeners && listeners[id].room == room :: Seat(id, listeners[id].agent)
  }

  /** The list holds exactly the sessions the room has now. */
  predicate UpToDate(s: State, seats: seq<Seat>, room: RoomKey) {
    (set x | x in seats) == SeatsOf(s.listeners, room)
  }

  /** A tick mixes the sessions its reading lists, at whatever level they speak now; a room
      with fewer than two is not mixed and nobody is announced in it. */
  predicate Enabled(s: State, a: Action) {
    match a
    case Insert(id, agent, room) => id !in s.listeners
    case OpenChannel(id) => id in s.listeners
    case CloseChannel(id) => id in s.listeners
    case ReadRoom(t, room, seats) => t !in s.readings && UpToDate(s, seats, room)
    case Tick(t, voices) =>
      && t in s.readings && |voices| == |s.readings[t]| >= 2
      && forall i :: 0 <= i < |voices| ==> voices[i].agentId == s.readings[t][i].agent
    case Remove(id) => id in s.listeners
  }

  /** The room's members are marked as announced, and the roster goes out if it can. */
  function Ticked(l: Listener, voices: seq<Voice>): Listener {
    var joins := if l.open then JoinsIn(RosterFor(l.announced, voices)) else {};
    l.(announced := l.announced + Agents(voices), view := l.view + joins)
  }

  /** Everybody forgets the agent; a room it has left altogether is told. */
  function Bereft(l: Listener, gone: Listener, toldRoom: bool): Listener {
    var forgot := l.(announced := l.announced - {gone.agent});
    if toldRoom && l.room == gone.room && l.open then forgot.(view := l.view - {gone.agent}) else forgot
  }

  predicate StillPresent(listeners: map<string, Listener>, gone: Listener) {
    exists id :: id in listeners && listeners[id].agent == gone.agent && listeners[id].room == gone.room
  }

  predicate Lists(s: State, a: Action, id: string) {
    a.Tick? && a.t in s.readings && id in s.listeners && Seat(id, s.listeners[id].agent) in s.readings[a.t]
  }

  /** The removal is announced to the room of the listener `id`. */
  predicate Tells(s: State, a: Action, id: string) {
    && a.Remove? && a.id in s.listeners && id in s.listeners
    && s.listeners[id].room == s.listeners[a.id].room
    && !StillPresent(s.listeners - {a.id}, s.listeners[a.id])
  }

  function Next(s: State, a: Action): State
    requires Enabled(s, a)
  {
    match a
    case Insert(id, agent, room) => s.(listeners := s.listeners[id := Listener(agent, room, false, {}, {})])
    case OpenChannel(id) => s.(listeners := s.listeners[id := s.listeners[id].(open := true)])
    case CloseChannel(id) => s.(listeners := s.listeners[id := s.listeners[id].(open := false)])
    case ReadRoom(t, room, seats) => s.(readings := s.readings[t := seats])
    case Tick(t, voices) =>
      State(map id | id in s.listeners :: if Lists(s, a, id) then Ticked(s.listeners[id], voices) else s.listeners[id],
            s.readings - {t})
    case Remove(id) =>
      s.(listeners := map x | x in s.listeners - {id} :: Bereft(s.listeners[x], s.listeners[id], Tells(s, a, x)))
  }

  predicate Possible(run: seq<Action>)
    decreases |run|, 0
  {
    run == [] || (Possible(run[..|run| - 1]) && Enabled(After(run[..|run| - 1]), run[|run| - 1]))
  }

  function After(run: seq<Action>): State
    requires Possible(run)
    decreases |run|, 1
  {
    if run == [] then INIT else Next(After(run[..|run| - 1]), run[|run| - 1])
  }

  // ---------------------------------------------------------------------------
  // One step, one listener
  // ---------------------------------------------------------------------------

  function LiveAgents(s: State, room: RoomKey): set<string> {
    set id | id in s.listeners && s.listeners[id].room == room :: s.listeners[id].agent
  }

  /** What a step makes of a listener that was there before and is there afterwards. */
  function ListenerAfter(s: State, a: Action, id: string): Listener
    requires id in s.listeners
  {
    var l := s.listeners[id];
    if Lists(s, a, id) then Ticked(l, a.voices)
    else if a.OpenChannel? && a.id == id then l.(open := true)
    else if a.CloseChannel? && a.id == id then l.(open := false)
    else if a.Remove? && a.id in s.listeners then Bereft(l, s.listeners[a.id], Tells(s, a, id))
    else l
  }

  lemma StepOfListener(s: State, a: Action, id: string)
    requires Enabled(s, a) && id in s.listeners
    ensures id in Next(s, a).listeners <==> a != Remove(id)
    ensures a != Remove(id) ==> Next(s, a).listeners[id] == ListenerAfter(s, a, id)
  {
    hide Ticked, Bereft, Tells, UpToDate;
  }

  lemma LiveAgentsGrow(s: State, s': State, room: RoomKey)
    requires forall id :: id in s.listeners ==>
               && id in s'.listeners && s'.listeners[id].agent == s.listeners[id].agent
               && s'.listeners[id].room == s.listeners[id].room
    ensures LiveAgents(s, room) <= LiveAgents(s', room)
  {
    forall a | a in LiveAgents(s, room)
      ensures a in LiveAgents(s', room)
    {
      var id :| id in s.listeners && s.listeners[id].room == room && s.listeners[id].agent == a;
      assert id in s'.listeners && s'.listeners[id].room == room && s'.listeners[id].agent == a;
    }
  }

  /** Who is live after a step: a tick changes nothing, a removal takes its agent out of the
      room unless another session is left there, and nothing else takes anybody out. */
  lemma LiveAgentsAfter(s: State, a: Action, room: RoomKey)
    requires Enabled(s, a)
    ensures a.Tick? ==> LiveAgents(Next(s, a), room) == LiveAgents(s, room)
    ensures !a.Remove? ==> LiveAgents(s, room) <= LiveAgents(Next(s, a), room)
    ensures a.Remove? ==>
              var gone := s.listeners[a.id];
              LiveAgents(Next(s, a), room) ==
                if room == gone.room && !StillPresent(s.listeners - {a.id}, gone)
                then LiveAgents(s, room) - {gone.agent}
                else LiveAgents(s, room)
  {
    hide RosterFor, JoinsIn, Agents, UpToDate, LiveAgents;
    var s' := Next(s, a);
    if a.Remove? {
      LiveAgentsAfterRemove(s, a, room);
    } else {
      LiveAgentsGrow(s, s', room);
      if a.Tick? {
        LiveAgentsGrow(s', s, room);
      }
    }
  }

  lemma LiveAgentsAfterRemove(s: State, a: Action, room: RoomKey)
    requires Enabled(s, a) && a.Remove?
    ensures var gone := s.listeners[a.id];
            LiveAgents(Next(s, a), room) ==
              if room == gone.room && !StillPresent(s.listeners - {a.id}, gone) then LiveAgents(s, room) - {gone.agent}
              else LiveAgents(s, room)
  {
    var s', gone, rest := Next(s, a), s.listeners[a.id], s.listeners - {a.id};
    assert forall id :: id in rest <==> id in s'.listeners;
    assert forall id :: id in rest ==>
        s'.listeners[id].agent == rest[id].agent && s'.listeners[id].room == rest[id].room;
    forall x
      ensures x in LiveAgents(s', room) <==> exists id :: id in rest && rest[id].room == room && rest[id].agent == x
    {
      if x in LiveAgents(s', room) {
        var id :| id in s'.listeners && s'.listeners[id].room == room && s'.listeners[id].agent == x;
        assert id in rest && rest[id].room == room && rest[id].agent == x;
      }
      if id :| id in rest && rest[id].room == room && rest[id].agent == x {
        assert id in s'.listeners && s'.listeners[id].room == room && s'.listeners[id].agent == x;
      }
    }
    forall x | x in LiveAgents(s, room) && !(x == gone.agent && room == gone.room)
      ensures x in LiveAgents(s', room)
    {
      var id :| id in s.listeners && s.listeners[id].room == room && s.listeners[id].agent == x;
      assert id in rest && rest[id].room == room && rest[id].agent == x;
    }
    forall x | x in LiveAgents(s', room)
      ensures x in LiveAgents(s, room)
    {
      var id :| id in rest && rest[id].room == room && rest[id].agent == x;
      assert id in s.listeners;
    }
  }

  /** What a tick makes of a listener it lists: everybody it found counts as announced, and the
      view gains exactly the new and unmasked ones, if the channel is open. */
  lemma TickOfListener(s: State, a: Action, id: string)
    requires Enabled(s, a) && Lists(s, a, id)
    ensures id in Next(s, a).listeners
    ensures var l, l' := s.listeners[id], Next(s, a).listeners[id];
            && l'.announced == l.announced + Agents(a.voices) && l'.open == l.open
            && (forall x :: x in l'.view <==>
                  x in l.view || (l.open && x in Agents(a.voices) && x !in l.announced && !Masked(a.voices, x)))
  {
    hide Masked, Agents, RosterFor, StillPresent, Next;
    StepOfListener(s, a, id);
    JoinsInRoster(s.listeners[id].announced, a.voices);
  }

  /** What a removal makes of everybody else: the server forgets the agent for all of them, and
      the open viewers of the room drop it once it has no session left there. */
  lemma RemovalOfOther(s: State, a: Action, id: string)
    requires Enabled(s, a) && a.Remove? && id in s.listeners && id != a.id
    ensures id in Next(s, a).listeners
    ensures var gone, l, l' := s.listeners[a.id], s.listeners[id], Next(s, a).listeners[id];
            var left := forall k :: k in s.listeners && k != a.id ==>
                          !(s.listeners[k].agent == gone.agent && s.listeners[k].room == gone.room);
            && l'.announced == l.announced - {gone.agent} && l'.open == l.open
            && l'.view == if left && l.room == gone.room && l.open then l.view - {gone.agent} else l.view
  {
    StepOfListener(s, a, id);
    var rest := s.listeners - {a.id};
    assert forall k :: k in rest <==> k in s.listeners && k != a.id;
  }

  /** Announced is within shown, and shown within who is there. */
  predicate SeesTruth(s: State, id: string)
    requires id in s.listeners
  {
    s.listeners[id].announced <= s.listeners[id].view <= LiveAgents(s, s.listeners[id].room)
  }

  /** What a step must find for the listener to go on seeing the truth: a tick shows only who
      is there, and leaves out nobody who is new; a departure reaches a viewer that shows the
      agent. */
  ghost predicate TruthSurvives(s: State, a: Action, id: string)
    requires id in s.listeners
  {
    var l := s.listeners[id];
    && (Lists(s, a, id) ==>
          forall x :: x in Agents(a.voices) && x !in l.announced ==>
            if l.open && !Masked(a.voices, x) then x in LiveAgents(s, l.room) else x in l.view)
    && (Tells(s, a, id) ==> l.open || s.listeners[a.id].agent !in l.view)
  }

  /** One step keeps a viewer truthful exactly when it finds what it needs, whether its
      channel is open or not. */
  lemma TruthSurvivesStep(s: State, a: Action, id: string)
    requires Enabled(s, a) && id in s.listeners && a != Remove(id) && SeesTruth(s, id)
    ensures id in Next(s, a).listeners
    ensures SeesTruth(Next(s, a), id) <==> TruthSurvives(s, a, id)
  {
    hide Masked, Agents, RosterFor, LiveAgents, StillPresent, Next, Lists, UpToDate;
    var l := s.listeners[id];
    StepOfListener(s, a, id);
    LiveAgentsAfter(s, a, l.room);
    if Lists(s, a, id) {
      TickIsTick(s, a, id);
      JoinsInRoster(l.announced, a.voices);
    }
  }

  lemma TickIsTick(s: State, a: Action, id: string)
    requires Lists(s, a, id)
    ensures a.Tick?
  {
  }

  // ---------------------------------------------------------------------------
  // Every run
  // ---------------------------------------------------------------------------

  /** The list a tick works on is the room as it is at that moment. */
  ghost predicate Fresh(s: State, a: Action) {
    a.Tick? && a.t in s.readings ==> exists room :: UpToDate(s, s.readings[a.t], room)
  }

  /** The step reaches the viewer: it finds the channel open whenever there is something to
      tell, and no second session hides a join. */
  ghost predicate Reaches(s: State, a: Action, id: string) {
    && (Tells(s, a, id) ==> s.listeners[id].open)
    && (Lists(s, a, id) ==>
          && s.listeners[id].open
          && forall x :: x in Agents(a.voices) && x !in s.listeners[id].announced ==> !Masked(a.voices, x))
  }

  /** What can be asked of every step for the sake of one listener: that it reaches the viewer,
      and that a tick works on the room as it is. */
  ghost predicate Serves(s: State, a: Action, id: string) {
    Reaches(s, a, id) && (Lists(s, a, id) ==> Fresh(s, a))
  }

  ghost predicate AlwaysServes(run: seq<Action>, id: string)
    requires Possible(run)
    decreases |run|
  {
    run == [] || (AlwaysServes(run[..|run| - 1], id) && Serves(After(run[..|run| - 1]), run[|run| - 1], id))
  }

  lemma SeatsAreRoom(s: State, seats: seq<Seat>, room: RoomKey, x: Seat)
    requires UpToDate(s, seats, room)
    ensures x in seats <==> x.id in s.listeners && s.listeners[x.id].room == room && s.listeners[x.id].agent == x.agent
  {
    assert x in seats <==> x in (set y | y in seats);
    assert x in SeatsOf(s.listeners, room) <==>
        x.id in s.listeners && s.listeners[x.id].room == room && s.listeners[x.id].agent == x.agent;
  }

  /** A fresh tick speaks of exactly the agents that are there. */
  lemma FreshTick(s: State, a: Action, id: string)
    requires Enabled(s, a) && Lists(s, a, id) && Fresh(s, a)
    ensures Agents(a.voices) == LiveAgents(s, s.listeners[id].room)
  {
    var seats := s.readings[a.t];
    var room :| UpToDate(s, seats, room);
    var mine := Seat(id, s.listeners[id].agent);
    hide UpToDate;
    SeatsAreRoom(s, seats, room, mine);
    forall x
      ensures x in Agents(a.voices) <==> x in LiveAgents(s, room)
    {
      AgentsOf(a.voices, x);
      if i :| 0 <= i < |a.voices| && a.voices[i].agentId == x {
        SeatsAreRoom(s, seats, room, seats[i]);
      }
      if k :| k in s.listeners && s.listeners[k].room == room && s.listeners[k].agent == x {
        SeatsAreRoom(s, seats, room, Seat(k, x));
        var i :| 0 <= i < |seats| && seats[i] == Seat(k, x);
        assert a.voices[i].agentId == x;
      }
    }
  }

  /** For a listener that every step serves: over every run, whoever the server has announced
      to it its viewer shows, and whoever its viewer shows has a live session in the room. */
  lemma {:induction false} ViewersSeeTruth(run: seq<Action>, id: string)
    requires Possible(run) && AlwaysServes(run, id) && id in After(run).listeners
    ensures var l := After(run).listeners[id];
            l.announced <= l.view <= LiveAgents(After(run), l.room)
  {
    var before, a := run[..|run| - 1], run[|run| - 1];
    var s := After(before);
    if id in s.listeners && a != Remove(id) {
      ViewersSeeTruth(before, id);
      hide Next, Enabled, LiveAgents, Masked, Agents, Fresh, StillPresent;
      if Lists(s, a, id) {
        FreshTick(s, a, id);
      }
      TruthSurvivesStep(s, a, id);
    }
  }

  /** Right after a tick of its room, what its viewer shows, what the server has announced to
      it and who is there are one and the same. */
  lemma ViewsAgreeAfterTick(run: seq<Action>, id: string)
    requires Possible(run) && run != [] && AlwaysServes(run, id)
    requires Lists(After(run[..|run| - 1]), run[|run| - 1], id)
    ensures id in After(run).listeners
    ensures var l := After(run).listeners[id];
            l.announced == l.view == LiveAgents(After(run), l.room)
  {
    var s, a := After(run[..|run| - 1]), run[|run| - 1];
    hide LiveAgents, Enabled, Masked, Agents, Fresh, StillPresent, RosterFor;
    StepOfListener(s, a, id);
    ViewersSeeTruth(run, id);
    FreshTick(s, a, id);
    LiveAgentsAfter(s, a, s.listeners[id].room);
  }

  ghost predicate AlwaysFresh(run: seq<Action>, id: string)
    requires Possible(run)
    decreases |run|
  {
    run == [] ||
    var s, a := After(run[..|run| - 1]), run[|run| - 1];
    AlwaysFresh(run[..|run| - 1], id) && (Lists(s, a, id) ==> Fresh(s, a))
  }

  /** Whatever becomes of the channel: the server never takes somebody for announced who has
      no session in the room, and right after a tick it knows everybody there. */
  lemma {:induction false} AnnouncedAreLive(run: seq<Action>, id: string)
    requires Possible(run) && AlwaysFresh(run, id) && id in After(run).listeners
    ensures After(run).listeners[id].announced <= LiveAgents(After(run), After(run).listeners[id].room)
    ensures Lists(After(run[..|run| - 1]), run[|run| - 1], id) ==>
              After(run).listeners[id].announced == LiveAgents(After(run), After(run).listeners[id].room)
  {
    var before, a := run[..|run| - 1], run[|run| - 1];
    var s := After(before);
    if id in s.listeners && a != Remove(id) {
      AnnouncedAreLive(before, id);
      hide Next, Enabled, LiveAgents, Masked, Agents, Fresh, StillPresent, RosterFor;
      StepOfListener(s, a, id);
      LiveAgentsAfter(s, a, s.listeners[id].room);
      if Lists(s, a, id) {
        FreshTick(s, a, id);
      }
    }
  }

  /** A list that was up to date stays so until a session enters or leaves its room. */
  lemma ListStaysUpToDate(s: State, a: Action, seats: seq<Seat>, room: RoomKey)
    requires Enabled(s, a) && UpToDate(s, seats, room)
    requires a.Insert? ==> a.room != room
    requires a.Remove? ==> s.listeners[a.id].room != room
    ensures UpToDate(Next(s, a), seats, room)
  {
    hide RosterFor, JoinsIn, Agents, StillPresent;
    var s' := Next(s, a);
    forall x
      ensures x in SeatsOf(s.listeners, room) <==> x in SeatsOf(s'.listeners, room)
    {
      assert x in SeatsOf(s.listeners, room) <==>
          x.id in s.listeners && s.listeners[x.id].room == room && s.listeners[x.id].agent == x.agent;
      assert x in SeatsOf(s'.listeners, room) <==>
          x.id in s'.listeners && s'.listeners[x.id].room == room && s'.listeners[x.id].agent == x.agent;
    }
  }

  /** So a tick that works on its list at once is fresh. */
  lemma TickAtOnceIsFresh(s: State, room: RoomKey, t: nat, seats: seq<Seat>, voices: seq<Voice>)
    requires Enabled(s, ReadRoom(t, room, seats))
    ensures Fresh(Next(s, ReadRoom(t, room, seats)), Tick(t, voices))
  {
    assert UpToDate(Next(s, ReadRoom(t, room, seats)), seats, room);
  }

  // ---------------------------------------------------------------------------
  // Runs of whole ticks
  // ---------------------------------------------------------------------------

  /** Reading a room's list and working on it are one step: every tick follows its own reading
      at once. */
  predicate TicksAtOnce(run: seq<Action>) {
    forall n :: 0 <= n < |run| && run[n].Tick? ==> n > 0 && run[n - 1].ReadRoom? && run[n - 1].t == run[n].t
  }

  ghost predicate AlwaysReaches(run: seq<Action>, id: string)
    requires Possible(run)
    decreases |run|
  {
    run == [] || (AlwaysReaches(run[..|run| - 1], id) && Reaches(After(run[..|run| - 1]), run[|run| - 1], id))
  }

  lemma LastTickIsFresh(run: seq<Action>)
    requires Possible(run) && TicksAtOnce(run) && run != [] && run[|run| - 1].Tick?
    ensures Fresh(After(run[..|run| - 1]), run[|run| - 1])
  {
    var n := |run| - 1;
    var before, read := run[..n], run[n - 1];
    assert before[n - 1] == read;
    TickAtOnceIsFresh(After(before[..n - 1]), read.room, read.t, read.seats, run[n].voices);
  }

  lemma {:induction false} WholeTicksServe(run: seq<Action>, id: string)
    requires Possible(run) && TicksAtOnce(run)
    ensures AlwaysFresh(run, id)
    ensures AlwaysReaches(run, id) ==> AlwaysServes(run, id)
  {
    if run != [] {
      var before, a := run[..|run| - 1], run[|run| - 1];
      WholeTicksServe(before, id);
      if a.Tick? {
        LastTickIsFresh(run);
      }
      hide After, Enabled, Next, Reaches, Fresh;
    }
  }

  /** Over every run of arrivals, whole ticks and departures, each of which finds the channel
      open when it has something to tell this viewer and hides no join from it: whoever was
      announced is shown, and whoever is shown is there. */
  lemma WholeTicksShowTruth(run: seq<Action>, id: string)
    requires Possible(run) && TicksAtOnce(run) && AlwaysReaches(run, id) && id in After(run).listeners
    ensures var l := After(run).listeners[id];
            l.announced <= l.view <= LiveAgents(After(run), l.room)
    ensures var l := After(run).listeners[id];
            Lists(After(run[..|run| - 1]), run[|run| - 1], id) ==>
              l.announced == l.view == LiveAgents(After(run), l.room)
  {
    WholeTicksServe(run, id);
    ViewersSeeTruth(run, id);
    if Lists(After(run[..|run| - 1]), run[|run| - 1], id) {
      ViewsAgreeAfterTick(run, id);
    }
  }

  // ---------------------------------------------------------------------------
  // How a join is lost
  // ---------------------------------------------------------------------------

  lemma {:induction false} PrefixIsPossible(run: seq<Action>, n: nat)
    requires Possible(run) && n <= |run|
    ensures Possible(run[..n])
    decreases |run|
  {
    if n == |run| {
      assert run[..n] == run;
    } else {
      var before := run[..|run| - 1];
      PrefixIsPossible(before, n);
      assert before[..n] == run[..n];
    }
  }

  /** The state after the first `n` steps. */
  function At(run: seq<Action>, n: nat): State
    requires Possible(run) && n <= |run|
  {
    PrefixIsPossible(run, n);
    After(run[..n])
  }

  lemma Step(run: seq<Action>, n: nat)
    requires Possible(run) && n < |run|
    ensures Enabled(At(run, n), run[n]) && At(run, n + 1) == Next(At(run, n), run[n])
  {
    hide Next, Enabled;
    PrefixIsPossible(run, n);
    PrefixIsPossible(run, n + 1);
    assert run[..n + 1][..n] == run[..n] && run[..n + 1][n] == run[n];
  }

  /** The server has announced the agent, and the viewer does not show it. */
  predicate Untold(s: State, id: string, agent: string) {
    id in s.listeners && agent in s.listeners[id].announced && agent !in s.listeners[id].view
  }

  /** The step ends the listener itself or one of the agent's sessions, wherever it is. */
  predicate Ends(s: State, a: Action, id: string, agent: string) {
    a.Remove? && a.id in s.listeners && (a.id == id || s.listeners[a.id].agent == agent)
  }

  lemma UntoldStays(s: State, a: Action, id: string, agent: string)
    requires Enabled(s, a) && Untold(s, id, agent) && !Ends(s, a, id, agent)
    ensures Untold(Next(s, a), id, agent)
  {
    hide Masked, Agents, RosterFor, StillPresent, Next;
    StepOfListener(s, a, id);
    if Lists(s, a, id) {
      JoinsInRoster(s.listeners[id].announced, a.voices);
    }
  }

  /** Nothing ever tells the viewer of an agent that was announced in vain, until one of the
      agent's sessions, or the listener's own, ends. */
  lemma {:induction false} UntoldForever(run: seq<Action>, n: nat, m: nat, id: string, agent: string)
    requires Possible(run) && n <= m <= |run| && Untold(At(run, n), id, agent)
    requires forall k: nat :: n <= k < m ==> !Ends(At(run, k), run[k], id, agent)
    ensures Untold(At(run, m), id, agent)
    decreases m
  {
    hide At, Next, Enabled, Untold, Ends;
    if n < m {
      UntoldForever(run, n, m - 1, id, agent);
      Step(run, m - 1);
      UntoldStays(At(run, m - 1), run[m - 1], id, agent);
    }
  }

  /** A tick that announces an agent for the first time tells the viewer if and only if the
      channel is open and no second session hides the join. */
  lemma TickTells(s: State, a: Action, id: string, agent: string)
    requires Enabled(s, a) && Lists(s, a, id) && agent in Agents(a.voices)
    requires agent !in s.listeners[id].announced && agent !in s.listeners[id].view
    ensures id in Next(s, a).listeners && agent in Next(s, a).listeners[id].announced
    ensures agent in Next(s, a).listeners[id].view <==> s.listeners[id].open && !Masked(a.voices, agent)
  {
    hide Masked, Agents, RosterFor, StillPresent, Next;
    StepOfListener(s, a, id);
    JoinsInRoster(s.listeners[id].announced, a.voices);
  }

  /** Now or never: an agent announced by a tick that cannot tell the viewer, because the
      channel is closed or another session of the agent speaks, is not shown by any later
      step until one of its sessions, or the listener's own, ends. */
  lemma JoinIsNowOrNever(run: seq<Action>, n: nat, id: string, agent: string)
    requires Possible(run) && n < |run| && Lists(At(run, n), run[n], id) && agent in Agents(run[n].voices)
    requires var l := At(run, n).listeners[id];
             agent !in l.announced && agent !in l.view && (!l.open || Masked(run[n].voices, agent))
    requires forall k: nat :: n < k < |run| ==> !Ends(At(run, k), run[k], id, agent)
    ensures Untold(At(run, |run|), id, agent)
  {
    hide At, Next, Enabled, Ends, Masked, Lists, Agents;
    Step(run, n);
    TickTells(At(run, n), run[n], id, agent);
    UntoldForever(run, n + 1, |run|, id, agent);
  }

  /** A tick marks its agents as announced even when the channel is not open, and throws the
      roster away: nobody whom the viewer does not show yet is shown by any later step. */
  lemma ClosedChannelLosesJoins(run: seq<Action>, n: nat, id: string, agent: string)
    requires Possible(run) && n < |run| && Lists(At(run, n), run[n], id) && agent in Agents(run[n].voices)
    requires !At(run, n).listeners[id].open && agent !in At(run, n).listeners[id].view
    requires forall k: nat :: n < k < |run| ==> !Ends(At(run, k), run[k], id, agent)
    ensures Untold(At(run, |run|), id, agent)
  {
    Step(run, n);
    StepOfListener(At(run, n), run[n], id);
    hide At, Next, Enabled, Ends, Agents;
    UntoldForever(run, n + 1, |run|, id, agent);
  }

  lemma {:induction false} BlindWhileClosed(run: seq<Action>, m: nat, n: nat, id: string)
    requires Possible(run) && m < n <= |run| && run[m].Insert? && run[m].id == id
    requires forall k: nat :: m < k < n ==> run[k] != OpenChannel(id) && run[k] != Remove(id)
    ensures id in At(run, n).listeners && !At(run, n).listeners[id].open && At(run, n).listeners[id].view == {}
    decreases n
  {
    hide At;
    Step(run, n - 1);
    if m < n - 1 {
      BlindWhileClosed(run, m, n - 1, id);
      StepOfListener(At(run, n - 1), run[n - 1], id);
      hide Next, Enabled, RosterFor, StillPresent;
    }
  }

  /** A newcomer whose channel opens only after its first tick is never told of anybody that
      tick found in the room, for as long as none of their sessions ends. */
  lemma NewcomerIsNeverTold(run: seq<Action>, m: nat, n: nat, id: string, agent: string)
    requires Possible(run) && m < n < |run| && run[m].Insert? && run[m].id == id
    requires forall k: nat :: m < k < n ==> run[k] != OpenChannel(id) && run[k] != Remove(id)
    requires Lists(At(run, n), run[n], id) && agent in Agents(run[n].voices)
    requires forall k: nat :: n < k < |run| ==> !Ends(At(run, k), run[k], id, agent)
    ensures Untold(At(run, |run|), id, agent)
  {
    hide At, Lists, Agents, Ends, Untold;
    BlindWhileClosed(run, m, n, id);
    ClosedChannelLosesJoins(run, n, id, agent);
  }

  /** Two sessions of one agent, the second one speaking: the join does not reach the viewer. */
  lemma SecondSessionMasksJoin()
    ensures var voices := [Voice("A", 0, true), Voice("A", 50, true)];
            "A" in Agents(voices) && "A" !in JoinsIn(RosterFor({}, voices))
  {
    var voices := [Voice("A", 0, true), Voice("A", 50, true)];
    assert voices[0].agentId == "A" && voices[1].agentId == "A" && voices[1].level != 0;
    AgentsOf(voices, "A");
    assert Masked(voices, "A");
    JoinsInRoster({}, voices);
  }

  // ---------------------------------------------------------------------------
  // How a departed agent comes back
  // ---------------------------------------------------------------------------

  /** A tick brings nobody back to a viewer with an open channel if and only if each agent
      that it announces for the first time, and that is not masked, is still there. */
  lemma DepartedStayGone(s: State, a: Action, id: string)
    requires Enabled(s, a) && Lists(s, a, id) && s.listeners[id].open
    requires s.listeners[id].view <= LiveAgents(s, s.listeners[id].room)
    ensures id in Next(s, a).listeners
    ensures Next(s, a).listeners[id].view <= LiveAgents(Next(s, a), s.listeners[id].room) <==>
              forall x :: x in Agents(a.voices) && x !in s.listeners[id].announced && !Masked(a.voices, x) ==>
                x in LiveAgents(s, s.listeners[id].room)
  {
    hide Masked, Agents, RosterFor, LiveAgents, StillPresent, Next;
    StepOfListener(s, a, id);
    LiveAgentsAfter(s, a, s.listeners[id].room);
    JoinsInRoster(s.listeners[id].announced, a.voices);
  }

  lemma Extend(run: seq<Action>, a: Action)
    requires Possible(run) && Enabled(After(run), a)
    ensures Possible(run + [a]) && After(run + [a]) == Next(After(run), a)
    ensures forall id :: AlwaysServes(run, id) && Serves(After(run), a, id) ==> AlwaysServes(run + [a], id)
  {
    hide Next, Enabled, Serves;
    assert (run + [a])[..|run|] == run;
  }

  /** Alice ("A") and Bob ("B") are in the room, Bob's channel is open, and a tick has read
      the room's list. */
  function BothRead(room: RoomKey): State {
    State(map["1" := Listener("A", room, false, {}, {}), "2" := Listener("B", room, true, {}, {})],
          map[0 := [Seat("1", "A"), Seat("2", "B")]])
  }

  lemma ReachTwo(room: RoomKey) returns (run: seq<Action>)
    ensures Possible(run) && AlwaysServes(run, "2")
    ensures After(run)
            == State(map["1" := Listener("A", room, false, {}, {}), "2" := Listener("B", room, false, {}, {})], map[])
  {
    var a, b := Insert("1", "A", room), Insert("2", "B", room);
    TwoInserts(room);
    Extend([], a);
    assert [] + [a] == [a];
    Extend([a], b);
    run := [a] + [b];
  }

  lemma ReachBothRead(room: RoomKey) returns (run: seq<Action>)
    ensures Possible(run) && After(run) == BothRead(room) && AlwaysServes(run, "2")
  {
    run := ReachTwo(room);
    var s2, seats := After(run), [Seat("1", "A"), Seat("2", "B")];
    var bob := Listener("B", room, true, {}, {});
    var open, read := OpenChannel("2"), ReadRoom(0, room, seats);
    assert s2.listeners["2" := bob] == BothRead(room).listeners;
    var s3 := State(BothRead(room).listeners, map[]);
    assert Enabled(s2, open) && Next(s2, open) == s3;
    SeatsOfTwo(s3, room, seats);
    assert Enabled(s3, read) && Next(s3, read) == BothRead(room);
    hide After, Possible, Next, Enabled, BothRead, AlwaysServes;
    Extend(run, open);
    Extend(run + [open], read);
    run := run + [open] + [read];
  }

  lemma TwoInserts(room: RoomKey)
    ensures var a, b := Insert("1", "A", room), Insert("2", "B", room);
            && Enabled(INIT, a) && Enabled(Next(INIT, a), b)
            && Next(Next(INIT, a), b)
               == State(map["1" := Listener("A", room, false, {}, {}), "2" := Listener("B", room, false, {}, {})],
                        map[])
  {
    var alice, bob := Listener("A", room, false, {}, {}), Listener("B", room, false, {}, {});
    assert "1" != "2";
    assert map["1" := alice]["2" := bob] == map["1" := alice, "2" := bob];
  }

  lemma SeatsOfTwo(s: State, room: RoomKey, seats: seq<Seat>)
    requires s.listeners.Keys == {"1", "2"} && s.listeners["1"].agent == "A" && s.listeners["2"].agent == "B"
    requires s.listeners["1"].room == s.listeners["2"].room == room
    requires seats == [Seat("1", "A"), Seat("2", "B")]
    ensures UpToDate(s, seats, room)
  {
    assert (set x | x in seats) == {Seat("1", "A"), Seat("2", "B")};
    assert "1" in s.listeners && "2" in s.listeners;
  }

  const TICK_OF_BOTH := Tick(0, [Voice("A", 0, true), Voice("B", 0, true)])

  lemma AliceLeaves(room: RoomKey)
    ensures var s, leave := BothRead(room), Remove("1");
            && Enabled(s, leave)
            && Next(s, leave).readings == s.readings
            && Next(s, leave).listeners.Keys == {"2"}
            && Next(s, leave).listeners["2"] == Listener("B", room, true, {}, {})
  {
    var s, leave := BothRead(room), Remove("1");
    assert "1" != "2";
    StepOfListener(s, leave, "2");
  }

  lemma LateTick(s: State, room: RoomKey)
    requires s.readings == BothRead(room).readings && s.listeners.Keys == {"2"}
    requires s.listeners["2"] == Listener("B", room, true, {}, {})
    ensures Enabled(s, TICK_OF_BOTH) && Lists(s, TICK_OF_BOTH, "2")
    ensures "A" in Agents(TICK_OF_BOTH.voices) && !Masked(TICK_OF_BOTH.voices, "A")
    ensures "A" !in LiveAgents(s, room)
  {
    var voices := TICK_OF_BOTH.voices;
    assert voices[0].agentId == "A" && voices[1].agentId == "B" && "A"[0] != "B"[0];
    AgentsOf(voices, "A");
  }

  /** The other way about: if nobody leaves, the same tick serves Bob, and his viewer shows
      both of them. */
  lemma FreshTickTellsEverybody(room: RoomKey)
    ensures exists run :: Possible(run) && AlwaysServes(run, "2") && "2" in After(run).listeners
                          && After(run).listeners["2"].view == {"A", "B"}
  {
    hide Next, Lists, LiveAgents, Agents, Masked, Fresh;
    var run := ReachBothRead(room);
    var s := BothRead(room);
    FreshTickServes(room);
    Extend(run, TICK_OF_BOTH);
    assert (run + [TICK_OF_BOTH])[..|run|] == run;
    ViewsAgreeAfterTick(run + [TICK_OF_BOTH], "2");
    StepOfListener(s, TICK_OF_BOTH, "2");
    LiveAgentsAfter(s, TICK_OF_BOTH, room);
    assert After(run + [TICK_OF_BOTH]).listeners["2"].view == {"A", "B"};
  }

  lemma FreshTickServes(room: RoomKey)
    ensures var s := BothRead(room);
            && Enabled(s, TICK_OF_BOTH) && Lists(s, TICK_OF_BOTH, "2") && Serves(s, TICK_OF_BOTH, "2")
            && LiveAgents(s, room) == {"A", "B"}
  {
    var s, voices := BothRead(room), TICK_OF_BOTH.voices;
    assert "1" != "2" && "A" != "B";
    SeatsOfTwo(s, room, s.readings[0]);
    assert voices[0].agentId == "A" && voices[1].agentId == "B";
    assert forall x :: !Masked(voices, x);
    assert "1" in s.listeners && "2" in s.listeners;
  }

  /** It happens: Alice leaves between the tick's reading of the list and its work on it, and
      Bob's viewer shows her, who has no session in the room any more. */
  lemma StaleTickRevivesTheDeparted(room: RoomKey)
    ensures exists run :: Possible(run) && "2" in After(run).listeners
                          && "A" in After(run).listeners["2"].view && "A" !in LiveAgents(After(run), room)
  {
    hide Next, Enabled, Lists, LiveAgents, Agents, Masked, BothRead;
    var run := ReachBothRead(room);
    AliceLeaves(room);
    Extend(run, Remove("1"));
    var gone := After(run + [Remove("1")]);
    LateTick(gone, room);
    Extend(run + [Remove("1")], TICK_OF_BOTH);
    TickTells(gone, TICK_OF_BOTH, "2", "A");
    LiveAgentsAfter(gone, TICK_OF_BOTH, room);
    assert "A" in After(run + [Remove("1")] + [TICK_OF_BOTH]).listeners["2"].view;
  }

  // ---------------------------------------------------------------------------
  // Joins that are lost
  // ---------------------------------------------------------------------------

  /** The agent is in the room, the viewer's channel is open, the server counts the agent as
      announced, and the viewer does not show it. */
  predicate JoinLost(s: State, id: string, agent: string) {
    Untold(s, id, agent) && s.listeners[id].open && agent in LiveAgents(s, s.listeners[id].room)
  }

  /** What a tick makes of a listener whose channel is closed, and of the room. */
  lemma TickInVain(s: State, a: Action, id: string, agent: string)
    requires Enabled(s, a) && Lists(s, a, id) && agent in Agents(a.voices)
    requires (!s.listeners[id].open || Masked(a.voices, agent))
    requires agent !in s.listeners[id].announced && agent !in s.listeners[id].view
    requires agent in LiveAgents(s, s.listeners[id].room)
    ensures Untold(Next(s, a), id, agent) && Next(s, a).listeners[id].open == s.listeners[id].open
    ensures agent in LiveAgents(Next(s, a), Next(s, a).listeners[id].room)
  {
    hide Masked, Agents, RosterFor, LiveAgents, StillPresent, Next;
    StepOfListener(s, a, id);
    TickTells(s, a, id, agent);
    LiveAgentsAfter(s, a, s.listeners[id].room);
  }

  lemma OpenedInVain(s: State, id: string, agent: string)
    requires Untold(s, id, agent) && agent in LiveAgents(s, s.listeners[id].room)
    ensures Enabled(s, OpenChannel(id)) && JoinLost(Next(s, OpenChannel(id)), id, agent)
  {
    var a := OpenChannel(id);
    hide LiveAgents;
    StepOfListener(s, a, id);
    LiveAgentsAfter(s, a, s.listeners[id].room);
  }

  lemma ClosedTick(s: State, room: RoomKey)
    requires s == State(map["1" := Listener("A", room, false, {}, {}), "2" := Listener("B", room, false, {}, {})],
                        map[0 := [Seat("1", "A"), Seat("2", "B")]])
    ensures Enabled(s, TICK_OF_BOTH) && Lists(s, TICK_OF_BOTH, "2") && "A" in Agents(TICK_OF_BOTH.voices)
    ensures "A" in LiveAgents(s, room)
  {
    var voices := TICK_OF_BOTH.voices;
    assert voices[0].agentId == "A" && voices[1].agentId == "B";
    AgentsOf(voices, "A");
    assert "1" in s.listeners;
  }

  lemma ReadTwo(s: State, room: RoomKey, s': State)
    requires s
             == State(map["1" := Listener("A", room, false, {}, {}), "2" := Listener("B", room, false, {}, {})], map[])
    requires s' == s.(readings := map[0 := [Seat("1", "A"), Seat("2", "B")]])
    ensures var read := ReadRoom(0, room, [Seat("1", "A"), Seat("2", "B")]);
            Enabled(s, read) && Next(s, read) == s'
    ensures s'.listeners["2"] == Listener("B", room, false, {}, {})
  {
    SeatsOfTwo(s, room, [Seat("1", "A"), Seat("2", "B")]);
  }

  /** It happens: a tick finds Alice and Bob in the room before Bob's channel opens. Then Bob's
      viewer does not show Alice, and no later tick will tell it. */
  lemma ClosedChannelRun(room: RoomKey)
    ensures exists run :: Possible(run) && JoinLost(After(run), "2", "A")
  {
    hide After, Possible, Next, Enabled, Lists, LiveAgents, Agents, Masked, JoinLost, AlwaysServes, Serves;
    var run := ReachTwo(room);
    var read := ReadRoom(0, room, [Seat("1", "A"), Seat("2", "B")]);
    var s := After(run).(readings := map[0 := read.seats]);
    ReadTwo(After(run), room, s);
    ClosedTick(s, room);
    Extend(run, read);
    TickInVain(s, TICK_OF_BOTH, "2", "A");
    Extend(run + [read], TICK_OF_BOTH);
    OpenedInVain(Next(s, TICK_OF_BOTH), "2", "A");
    Extend(run + [read] + [TICK_OF_BOTH], OpenChannel("2"));
    assert JoinLost(After(run + [read] + [TICK_OF_BOTH] + [OpenChannel("2")]), "2", "A");
  }

  /** Alice with a second session, the one that speaks, and Bob with his channel open. */
  function ThreeRead(room: RoomKey): State {
    State(map["1" := Listener("A", room, false, {}, {}), "2" := Listener("B", room, true, {}, {}),
              "3" := Listener("A", room, false, {}, {})],
          map[0 := [Seat("1", "A"), Seat("3", "A"), Seat("2", "B")]])
  }

  const TICK_OF_THREE := Tick(0, [Voice("A", 0, true), Voice("A", 50, true), Voice("B", 0, true)])

  lemma ReachThreeRead(room: RoomKey) returns (run: seq<Action>)
    ensures Possible(run) && After(run) == ThreeRead(room)
  {
    run := ReachTwo(room);
    var s2, s5 := After(run), ThreeRead(room);
    var third, open, read := Insert("3", "A", room), OpenChannel("2"), ReadRoom(0, room, s5.readings[0]);
    assert "1" != "2" && "1" != "3" && "2" != "3";
    var s3 := State(s2.listeners["3" := Listener("A", room, false, {}, {})], map[]);
    var s4 := State(s5.listeners, map[]);
    assert Enabled(s2, third) && Next(s2, third) == s3;
    assert s3.listeners["2" := Listener("B", room, true, {}, {})] == s5.listeners;
    assert Enabled(s3, open) && Next(s3, open) == s4;
    SeatsOfThree(s4, room, s5.readings[0]);
    assert Enabled(s4, read) && Next(s4, read) == s5;
    hide After, Possible, Next, Enabled;
    Extend(run, third);
    Extend(run + [third], open);
    Extend(run + [third] + [open], read);
    run := run + [third] + [open] + [read];
  }

  lemma SeatsOfThree(s: State, room: RoomKey, seats: seq<Seat>)
    requires s.listeners == ThreeRead(room).listeners && seats == ThreeRead(room).readings[0]
    ensures UpToDate(s, seats, room)
  {
    assert (set x | x in seats) == {Seat("1", "A"), Seat("3", "A"), Seat("2", "B")};
    assert "1" in s.listeners && "2" in s.listeners && "3" in s.listeners;
    assert SeatsOf(s.listeners, room) == {Seat("1", "A"), Seat("3", "A"), Seat("2", "B")};
  }

  lemma MaskedTick(room: RoomKey)
    ensures var s := ThreeRead(room);
            && Enabled(s, TICK_OF_THREE) && Lists(s, TICK_OF_THREE, "2") && "A" in Agents(TICK_OF_THREE.voices)
            && Masked(TICK_OF_THREE.voices, "A") && "A" in LiveAgents(s, room)
            && s.listeners["2"] == Listener("B", room, true, {}, {})
  {
    var s, voices := ThreeRead(room), TICK_OF_THREE.voices;
    assert voices[0].agentId == "A" && voices[1].agentId == "A" && voices[1].level != 0;
    AgentsOf(voices, "A");
    assert "1" in s.listeners;
  }

  /** It happens in a tick that finds the channel open, too: the entry of Alice's second
      session replaces the one that carried her join. */
  lemma MaskedJoinRun(room: RoomKey)
    ensures exists run, a ::
              && Possible(run) && Enabled(After(run), a) && Lists(After(run), a, "2")
              && After(run).listeners["2"].open && Possible(run + [a]) && JoinLost(After(run + [a]), "2", "A")
  {
    hide After, Possible, Next, Enabled, Lists, LiveAgents, Agents, Masked, ThreeRead;
    var run := ReachThreeRead(room);
    MaskedTick(room);
    TickInVain(ThreeRead(room), TICK_OF_THREE, "2", "A");
    Extend(run, TICK_OF_THREE);
    assert JoinLost(After(run + [TICK_OF_THREE]), "2", "A");
  }
}
