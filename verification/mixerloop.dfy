/** The 20 ms mixer loop and the tasks it spawns (`mixer_loop`, src/main.rs), step by step
    and in any interleaving. */
module MixerLoop {
  import opened Wrappers
  import opened Room
  import Mixer
  import Rtp

  /** Where the loop is: waiting for the next tick, or going through the rooms. */
  datatype Loop = Waiting | Spawning(done: set<RoomKey>)

  /** An unfinished room task: the members it has still to spawn a listener task for, and
      those it has. */
  datatype RoomTask = RoomTask(room: RoomKey, tick: nat, mixed: bool, todo: seq<string>, spawned: set<string>)

  /** How far a listener task is: before the endpoint lookup, inside `send_mix` before the
      encoder, between the encoder and the clock, and between the clock and the track. */
  datatype Phase = Ready | Sending | Encoded | Stamped(packet: Sent)

  /** An unfinished listener task. */
  datatype ListenerTask = ListenerTask(parent: nat, id: string, tick: nat, phase: Phase)

  /** A packet: the tick its audio was mixed in and its time stamp. */
  datatype Sent = Sent(tick: nat, stamp: int)

  /** What an endpoint has done: the ticks whose audio its encoder took, the packets that got
      a time stamp, and those the track took. `holder` is the task that encoded last. */
  datatype Log = Log(
    start: int, clock: int, encoded: seq<nat>, stamped: seq<Sent>, written: seq<Sent>, holder: nat)

  /** The last three fields are history of the current tick: the rooms it found, the members it
      read of those it has come to, and the sessions it has spawned a listener task for. */
  datatype State = State(
    loop: Loop, tick: nat, inflight: int, skipped: nat,
    rooms: map<nat, RoomTask>, listeners: map<nat, ListenerTask>, logs: map<string, Log>,
    keys: set<RoomKey>, lists: map<RoomKey, seq<string>>, called: set<string>)

  const INIT := State(Waiting, 0, 0, 0, map[], map[], map[], {}, map[], {})

  datatype Action =
    | AddEndpoint(id: string, start: int)
    | TickFires(keys: set<RoomKey>)
    | SpawnRoom(rt: nat, room: RoomKey, members: seq<string>)
    | SkipRoom(room: RoomKey, members: seq<string>)
    | EndTick
    | Mix(rt: nat)
    | SpawnListener(rt: nat, lt: nat)
    | FinishRoom(rt: nat)
    | LookUp(lt: nat, reachable: bool)
    | Encode(lt: nat, ok: bool)
    | TakeStamp(lt: nat)
    | Write(lt: nat, ok: bool)

  /** A room's list holds no session twice and only sessions of the room
      (`LockResults.MembersTheorem`), and a session never changes its room; `home` says which
      it is. A listener task finds its endpoint gone or its channel closed at any time, which
      is what `reachable` leaves open; tasks are not cut short by a panic. */
  predicate Enabled(home: string -> RoomKey, s: State, a: Action) {
    match a
    case AddEndpoint(id, start) => id !in s.logs && 0 <= start < U32
    case TickFires(keys) => s.loop.Waiting?
    case SpawnRoom(rt, room, members) =>
      && s.loop.Spawning? && room in s.keys - s.loop.done && rt !in s.rooms && |members| >= 2
      && (forall i :: 0 <= i < |members| ==> home(members[i]) == room)
      && (forall i, j :: 0 <= i < j < |members| ==> members[i] != members[j])
      && (forall lt :: lt in s.listeners ==> s.listeners[lt].parent != rt)
    case SkipRoom(room, members) => s.loop.Spawning? && room in s.keys - s.loop.done && |members| < 2
    case EndTick => s.loop.Spawning? && s.keys <= s.loop.done
    case Mix(rt) => rt in s.rooms && !s.rooms[rt].mixed
    case SpawnListener(rt, lt) => rt in s.rooms && s.rooms[rt].mixed && s.rooms[rt].todo != [] && lt !in s.listeners
    case FinishRoom(rt) =>
      && rt in s.rooms && s.rooms[rt].mixed && s.rooms[rt].todo == []
      && forall lt :: lt in s.listeners ==> s.listeners[lt].parent != rt
    case LookUp(lt, reachable) =>
      lt in s.listeners && s.listeners[lt].phase.Ready? && (reachable ==> s.listeners[lt].id in s.logs)
    case Encode(lt, ok) => lt in s.listeners && s.listeners[lt].phase.Sending? && s.listeners[lt].id in s.logs
    case TakeStamp(lt) => lt in s.listeners && s.listeners[lt].phase.Encoded? && s.listeners[lt].id in s.logs
    case Write(lt, ok) => lt in s.listeners && s.listeners[lt].phase.Stamped? && s.listeners[lt].id in s.logs
  }

  function Next(home: string -> RoomKey, s: State, a: Action): State
    requires Enabled(home, s, a)
  {
    match a
    case AddEndpoint(id, start) => s.(logs := s.logs[id := Log(start, start, [], [], [], 0)])
    case TickFires(keys) =>
      if s.inflight != 0 then s.(skipped := s.skipped + 1)
      else s.(loop := Spawning({}), tick := s.tick + 1, keys := keys, lists := map[], called := {})
    case SpawnRoom(rt, room, members) =>
      s.(loop := Spawning(s.loop.done + {room}), inflight := s.inflight + 1,
         rooms := s.rooms[rt := RoomTask(room, s.tick, false, members, {})], lists := s.lists[room := members])
    case SkipRoom(room, members) => s.(loop := Spawning(s.loop.done + {room}), lists := s.lists[room := members])
    case EndTick => s.(loop := Waiting)
    case Mix(rt) => s.(rooms := s.rooms[rt := s.rooms[rt].(mixed := true)])
    case SpawnListener(rt, lt) =>
      var task := s.rooms[rt];
      var id := task.todo[0];
      s.(rooms := s.rooms[rt := task.(todo := task.todo[1..], spawned := task.spawned + {id})],
         listeners := s.listeners[lt := ListenerTask(rt, id, task.tick, Ready)], called := s.called + {id})
    case FinishRoom(rt) => s.(inflight := s.inflight - 1, rooms := s.rooms - {rt})
    case LookUp(lt, reachable) =>
      if reachable then s.(listeners := s.listeners[lt := s.listeners[lt].(phase := Sending)])
      else s.(listeners := s.listeners - {lt})
    case Encode(lt, ok) =>
      if !ok then s.(listeners := s.listeners - {lt})
      else
        var task := s.listeners[lt];
        var log := s.logs[task.id];
        s.(listeners := s.listeners[lt := task.(phase := Encoded)],
           logs := s.logs[task.id := log.(encoded := log.encoded + [task.tick], holder := lt)])
    case TakeStamp(lt) =>
      var task := s.listeners[lt];
      var log := s.logs[task.id];
      var packet := Sent(task.tick, log.clock);
      s.(listeners := s.listeners[lt := task.(phase := Stamped(packet))],
         logs := s.logs[task.id := log.(stamped := log.stamped + [packet],
                                        clock := (log.clock + Mixer.FRAME_SAMPLES) % U32)])
    case Write(lt, ok) =>
      var task := s.listeners[lt];
      var log := s.logs[task.id];
      s.(listeners := s.listeners - {lt},
         logs := if ok then s.logs[task.id := log.(written := log.written + [task.phase.packet])] else s.logs)
  }

  ghost predicate Possible(home: string -> RoomKey, run: seq<Action>)
    decreases |run|, 0
  {
    run == [] || (Possible(home, run[..|run| - 1]) && Enabled(home, After(home, run[..|run| - 1]), run[|run| - 1]))
  }

  ghost function After(home: string -> RoomKey, run: seq<Action>): State
    requires Possible(home, run)
    decreases |run|, 1
  {
    if run == [] then INIT else Next(home, After(home, run[..|run| - 1]), run[|run| - 1])
  }

  // ---------------------------------------------------------------------------
  // Tasks
  // ---------------------------------------------------------------------------

  /** A room task of the current tick: nobody is spawned twice, and everybody belongs to it. */
  ghost predicate TaskOk(home: string -> RoomKey, loop: Loop, tick: nat, task: RoomTask) {
    && task.tick == tick
    && (loop.Spawning? ==> task.room in loop.done)
    && (forall id :: id in task.todo || id in task.spawned ==> home(id) == task.room)
    && (forall id :: id in task.todo ==> id !in task.spawned)
    && Distinct(task.todo)
    && (task.spawned != {} ==> task.mixed)
  }

  ghost predicate RoomsAgree(home: string -> RoomKey, loop: Loop, tick: nat, inflight: int, rooms: map<nat, RoomTask>) {
    && inflight == |rooms|
    && (forall rt :: rt in rooms ==> TaskOk(home, loop, tick, rooms[rt]))
    && (forall rt, ru :: rt in rooms && ru in rooms && rooms[rt].room == rooms[ru].room ==> rt == ru)
  }

  ghost predicate ListenersAgree(tick: nat, rooms: map<nat, RoomTask>, listeners: map<nat, ListenerTask>) {
    && (forall lt :: lt in listeners ==>
          && listeners[lt].tick == tick && listeners[lt].parent in rooms
          && listeners[lt].id in rooms[listeners[lt].parent].spawned)
    && (forall lt, lu :: lt in listeners && lu in listeners && listeners[lt].id == listeners[lu].id ==> lt == lu)
  }

  /** `inflight` counts the unfinished room tasks, which all work for the current tick, at
      most one for a room; and there is at most one unfinished listener task per session. */
  ghost predicate TasksInv(home: string -> RoomKey, s: State) {
    && RoomsAgree(home, s.loop, s.tick, s.inflight, s.rooms)
    && ListenersAgree(s.tick, s.rooms, s.listeners)
  }

  lemma RoomsAfterUpdate(home: string -> RoomKey, loop: Loop, tick: nat, inflight: int, rooms: map<nat, RoomTask>,
                         rt: nat, task: RoomTask)
    requires RoomsAgree(home, loop, tick, inflight, rooms)
    requires rt in rooms && task.room == rooms[rt].room && TaskOk(home, loop, tick, task)
    ensures RoomsAgree(home, loop, tick, inflight, rooms[rt := task])
  {
    hide TaskOk;
    assert rooms[rt := task].Keys == rooms.Keys;
  }

  lemma RoomsAfterSpawn(home: string -> RoomKey, done: set<RoomKey>, tick: nat, inflight: int,
                        rooms: map<nat, RoomTask>, rt: nat, task: RoomTask)
    requires RoomsAgree(home, Spawning(done), tick, inflight, rooms)
    requires rt !in rooms && task.room !in done && TaskOk(home, Spawning(done + {task.room}), tick, task)
    ensures RoomsAgree(home, Spawning(done + {task.room}), tick, inflight + 1, rooms[rt := task])
  {
  }

  lemma RoomsAfterLoop(home: string -> RoomKey, loop: Loop, loop': Loop, tick: nat, inflight: int,
                       rooms: map<nat, RoomTask>)
    requires RoomsAgree(home, loop, tick, inflight, rooms)
    requires loop'.Waiting? || (loop.Spawning? && loop.done <= loop'.done)
    ensures RoomsAgree(home, loop', tick, inflight, rooms)
  {
  }

  lemma RoomsAfterFinish(home: string -> RoomKey, loop: Loop, tick: nat, inflight: int,
                         rooms: map<nat, RoomTask>, rt: nat)
    requires RoomsAgree(home, loop, tick, inflight, rooms) && rt in rooms
    ensures RoomsAgree(home, loop, tick, inflight - 1, rooms - {rt})
  {
    hide TaskOk;
    assert (rooms - {rt}).Keys == rooms.Keys - {rt};
  }

  lemma NoTasks(home: string -> RoomKey, s: State)
    requires TasksInv(home, s) && s.inflight == 0
    ensures s.rooms == map[] && s.listeners == map[]
  {
    assert s.rooms.Keys == {};
    assert s.listeners.Keys == {};
  }

  lemma SpawnedTask(home: string -> RoomKey, s: State, rt: nat)
    requires TasksInv(home, s) && rt in s.rooms && s.rooms[rt].todo != [] && s.rooms[rt].mixed
    ensures var task := s.rooms[rt];
            var id := task.todo[0];
            && TaskOk(home, s.loop, s.tick, task.(todo := task.todo[1..], spawned := task.spawned + {id}))
            && id !in task.spawned
  {
    var task := s.rooms[rt];
    assert TaskOk(home, s.loop, s.tick, task);
    assert task.todo[0] in task.todo;
  }

  lemma ListenersAfterSpawn(home: string -> RoomKey, s: State, rt: nat, lt: nat)
    requires TasksInv(home, s) && rt in s.rooms && s.rooms[rt].todo != [] && lt !in s.listeners
    ensures var task := s.rooms[rt];
            var id := task.todo[0];
            ListenersAgree(s.tick, s.rooms[rt := task.(todo := task.todo[1..], spawned := task.spawned + {id})],
                           s.listeners[lt := ListenerTask(rt, id, task.tick, Ready)])
  {
    var task := s.rooms[rt];
    var id := task.todo[0];
    assert TaskOk(home, s.loop, s.tick, task);
    assert task.todo[0] in task.todo;
    forall lu | lu in s.listeners
      ensures s.listeners[lu].id != id
    {
      var other := s.listeners[lu].parent;
      assert TaskOk(home, s.loop, s.tick, s.rooms[other]);
    }
  }

  lemma ListenersAfterPhase(tick: nat, rooms: map<nat, RoomTask>, listeners: map<nat, ListenerTask>, lt: nat,
                            phase: Phase)
    requires ListenersAgree(tick, rooms, listeners) && lt in listeners
    ensures ListenersAgree(tick, rooms, listeners[lt := listeners[lt].(phase := phase)])
  {
  }

  lemma ListenersAfterDone(tick: nat, rooms: map<nat, RoomTask>, listeners: map<nat, ListenerTask>, lt: nat)
    requires ListenersAgree(tick, rooms, listeners)
    ensures ListenersAgree(tick, rooms, listeners - {lt})
  {
  }

  lemma ListenersAfterMix(tick: nat, rooms: map<nat, RoomTask>, listeners: map<nat, ListenerTask>, rt: nat,
                          task: RoomTask)
    requires ListenersAgree(tick, rooms, listeners)
    requires rt in rooms ==> rooms[rt].spawned <= task.spawned
    ensures ListenersAgree(tick, rooms[rt := task], listeners)
  {
  }

  lemma ListenersAfterFinish(tick: nat, rooms: map<nat, RoomTask>, listeners: map<nat, ListenerTask>, rt: nat)
    requires ListenersAgree(tick, rooms, listeners)
    requires forall lt :: lt in listeners ==> listeners[lt].parent != rt
    ensures ListenersAgree(tick, rooms - {rt}, listeners)
  {
  }

  predicate IsLoopStep(a: Action) {
    a.AddEndpoint? || a.TickFires? || a.SpawnRoom? || a.SkipRoom? || a.EndTick?
  }

  predicate IsRoomStep(a: Action) {
    a.Mix? || a.SpawnListener? || a.FinishRoom?
  }

  lemma TasksKeptByLoop(home: string -> RoomKey, s: State, a: Action)
    requires Enabled(home, s, a) && TasksInv(home, s) && IsLoopStep(a)
    ensures TasksInv(home, Next(home, s, a))
  {
    hide TaskOk;
    if a.SpawnRoom? {
      var task := RoomTask(a.room, s.tick, false, a.members, {});
      NewTask(home, s, a, task);
      hide RoomsAgree, ListenersAgree;
      RoomsAfterSpawn(home, s.loop.done, s.tick, s.inflight, s.rooms, a.rt, task);
      ListenersAfterMix(s.tick, s.rooms, s.listeners, a.rt, task);
    } else if a.TickFires? {
      if s.inflight == 0 {
        NoTasks(home, s);
      }
    } else {
      hide RoomsAgree, ListenersAgree;
      if a.SkipRoom? {
        RoomsAfterLoop(home, s.loop, Spawning(s.loop.done + {a.room}), s.tick, s.inflight, s.rooms);
      } else if a.EndTick? {
        RoomsAfterLoop(home, s.loop, Waiting, s.tick, s.inflight, s.rooms);
      }
    }
  }

  lemma NewTask(home: string -> RoomKey, s: State, a: Action, task: RoomTask)
    requires Enabled(home, s, a) && a.SpawnRoom? && task == RoomTask(a.room, s.tick, false, a.members, {})
    ensures TaskOk(home, Spawning(s.loop.done + {a.room}), s.tick, task)
  {
  }

  lemma TasksKeptByRoom(home: string -> RoomKey, s: State, a: Action)
    requires Enabled(home, s, a) && TasksInv(home, s) && IsRoomStep(a)
    ensures TasksInv(home, Next(home, s, a))
  {
    var task := s.rooms[a.rt];
    assert TaskOk(home, s.loop, s.tick, task);
    assert TaskOk(home, s.loop, s.tick, task.(mixed := true));
    hide RoomsAgree, ListenersAgree, TaskOk;
    match a
    case Mix(rt) =>
      RoomsAfterUpdate(home, s.loop, s.tick, s.inflight, s.rooms, rt, task.(mixed := true));
      ListenersAfterMix(s.tick, s.rooms, s.listeners, rt, task.(mixed := true));
    case SpawnListener(rt, lt) =>
      SpawnedTask(home, s, rt);
      RoomsAfterUpdate(home, s.loop, s.tick, s.inflight, s.rooms, rt,
                       task.(todo := task.todo[1..], spawned := task.spawned + {task.todo[0]}));
      ListenersAfterSpawn(home, s, rt, lt);
    case FinishRoom(rt) =>
      RoomsAfterFinish(home, s.loop, s.tick, s.inflight, s.rooms, rt);
      ListenersAfterFinish(s.tick, s.rooms, s.listeners, rt);
  }

  lemma TasksKeptByListener(home: string -> RoomKey, s: State, a: Action)
    requires Enabled(home, s, a) && TasksInv(home, s) && !IsLoopStep(a) && !IsRoomStep(a)
    ensures TasksInv(home, Next(home, s, a))
  {
    var s' := Next(home, s, a);
    hide RoomsAgree, ListenersAgree;
    ListenersAfterDone(s.tick, s.rooms, s.listeners, a.lt);
    match a
    case LookUp(lt, reachable) => ListenersAfterPhase(s.tick, s.rooms, s.listeners, lt, Sending);
    case Encode(lt, ok) => ListenersAfterPhase(s.tick, s.rooms, s.listeners, lt, Encoded);
    case TakeStamp(lt) =>
      var packet := Sent(s.listeners[lt].tick, s.logs[s.listeners[lt].id].clock);
      ListenersAfterPhase(s.tick, s.rooms, s.listeners, lt, Stamped(packet));
    case Write(lt, ok) =>
  }

  lemma TasksKept(home: string -> RoomKey, s: State, a: Action)
    requires Enabled(home, s, a) && TasksInv(home, s)
    ensures TasksInv(home, Next(home, s, a))
  {
    hide TasksInv, Next, Enabled;
    if IsLoopStep(a) {
      TasksKeptByLoop(home, s, a);
    } else if IsRoomStep(a) {
      TasksKeptByRoom(home, s, a);
    } else {
      TasksKeptByListener(home, s, a);
    }
  }

  // ---------------------------------------------------------------------------
  // Logs
  // ---------------------------------------------------------------------------

  /** The encoder took at most one frame per tick, in tick order; the k-th one carries stamp
      k; and the track took some of them, in the same order. */
  ghost predicate LogOk(log: Log, tick: nat) {
    && (forall i, j :: 0 <= i < j < |log.encoded| ==> log.encoded[i] < log.encoded[j])
    && (forall i :: 0 <= i < |log.encoded| ==> log.encoded[i] <= tick)
    && |log.stamped| <= |log.encoded| <= |log.stamped| + 1
    && (forall k: nat :: k < |log.stamped| ==> log.stamped[k] == Sent(log.encoded[k], Rtp.Stamp(log.start, k)))
    && log.clock == Rtp.Stamp(log.start, |log.stamped|)
    && (forall i, j :: 0 <= i < j < |log.written| ==> log.written[i].tick < log.written[j].tick)
    && (forall p :: p in log.written ==> p in log.stamped)
  }

  /** The endpoint's share of the current tick has reached the encoder. */
  predicate Served(log: Log, tick: nat) {
    tick in log.encoded
  }

  /** What an unfinished listener task means for its endpoint's log. */
  ghost predicate PhaseOk(task: ListenerTask, logs: map<string, Log>, tick: nat) {
    match task.phase
    case Ready => task.id in logs ==> !Served(logs[task.id], tick)
    case Sending => task.id in logs && !Served(logs[task.id], tick)
    case Encoded =>
      && task.id in logs
      && var log := logs[task.id];
         |log.encoded| == |log.stamped| + 1 && log.encoded[|log.stamped|] == tick
    case Stamped(packet) =>
      && task.id in logs
      && var log := logs[task.id];
         && |log.encoded| == |log.stamped| > 0
         && packet == log.stamped[|log.stamped| - 1] && packet.tick == tick
         && forall p :: p in log.written ==> p.tick < tick
  }

  /** A frame that has been encoded and not yet stamped is in the hands of one task. */
  ghost predicate HolderOk(id: string, log: Log, listeners: map<nat, ListenerTask>) {
    |log.encoded| != |log.stamped| ==>
      log.holder in listeners && listeners[log.holder].id == id && listeners[log.holder].phase.Encoded?
  }

  ghost predicate LogsAgree(home: string -> RoomKey, loop: Loop, tick: nat, rooms: map<nat, RoomTask>,
                            listeners: map<nat, ListenerTask>, logs: map<string, Log>)
  {
    && (forall id :: id in logs ==> LogOk(logs[id], tick) && HolderOk(id, logs[id], listeners))
    && (forall id :: id in logs && Served(logs[id], tick) && loop.Spawning? ==> home(id) in loop.done)
    && (forall rt, id :: rt in rooms && id in rooms[rt].todo && id in logs ==> !Served(logs[id], tick))
    && (forall lt :: lt in listeners ==> PhaseOk(listeners[lt], logs, tick))
  }

  ghost predicate LogsInv(home: string -> RoomKey, s: State) {
    LogsAgree(home, s.loop, s.tick, s.rooms, s.listeners, s.logs)
  }

  lemma LogsAfterEndpoint(home: string -> RoomKey, loop: Loop, tick: nat, rooms: map<nat, RoomTask>,
                          listeners: map<nat, ListenerTask>, logs: map<string, Log>, id: string, start: int)
    requires LogsAgree(home, loop, tick, rooms, listeners, logs) && id !in logs && 0 <= start < U32
    ensures LogsAgree(home, loop, tick, rooms, listeners, logs[id := Log(start, start, [], [], [], 0)])
  {
    var log := Log(start, start, [], [], [], 0);
    assert LogOk(log, tick) && !Served(log, tick) && HolderOk(id, log, listeners);
    hide LogOk, HolderOk, Served;
  }

  lemma LogsAfterTick(home: string -> RoomKey, s: State)
    requires LogsInv(home, s) && s.rooms == map[] && s.listeners == map[]
    ensures LogsAgree(home, Spawning({}), s.tick + 1, s.rooms, s.listeners, s.logs)
  {
    forall id | id in s.logs
      ensures LogOk(s.logs[id], s.tick + 1) && !Served(s.logs[id], s.tick + 1)
    {
    }
  }

  lemma LogsAfterLoop(home: string -> RoomKey, loop: Loop, loop': Loop, tick: nat, rooms: map<nat, RoomTask>,
                      listeners: map<nat, ListenerTask>, logs: map<string, Log>)
    requires LogsAgree(home, loop, tick, rooms, listeners, logs)
    requires loop'.Waiting? || (loop.Spawning? && loop.done <= loop'.done)
    ensures LogsAgree(home, loop', tick, rooms, listeners, logs)
  {
    hide LogOk, HolderOk, Served, PhaseOk;
  }

  lemma LogsAfterRoom(home: string -> RoomKey, loop: Loop, tick: nat, rooms: map<nat, RoomTask>,
                      listeners: map<nat, ListenerTask>, logs: map<string, Log>, rt: nat, task: RoomTask)
    requires LogsAgree(home, loop, tick, rooms, listeners, logs)
    requires forall id :: id in task.todo && id in logs ==> !Served(logs[id], tick)
    ensures LogsAgree(home, loop, tick, rooms[rt := task], listeners, logs)
  {
    hide LogOk, HolderOk, Served, PhaseOk;
  }

  lemma LogsAfterFinish(home: string -> RoomKey, loop: Loop, tick: nat, rooms: map<nat, RoomTask>,
                        listeners: map<nat, ListenerTask>, logs: map<string, Log>, rt: nat)
    requires LogsAgree(home, loop, tick, rooms, listeners, logs)
    ensures LogsAgree(home, loop, tick, rooms - {rt}, listeners, logs)
  {
    hide LogOk, HolderOk, Served, PhaseOk;
  }

  /** A listener task appears, or moves on without touching its endpoint's log. */
  lemma LogsAfterListener(home: string -> RoomKey, loop: Loop, tick: nat, rooms: map<nat, RoomTask>,
                          listeners: map<nat, ListenerTask>, logs: map<string, Log>, lt: nat, task: ListenerTask)
    requires LogsAgree(home, loop, tick, rooms, listeners, logs)
    requires PhaseOk(task, logs, tick)
    requires lt in listeners ==> !listeners[lt].phase.Encoded?
    ensures LogsAgree(home, loop, tick, rooms, listeners[lt := task], logs)
  {
    hide LogOk, Served, PhaseOk;
  }

  lemma LogsAfterDone(home: string -> RoomKey, loop: Loop, tick: nat, rooms: map<nat, RoomTask>,
                      listeners: map<nat, ListenerTask>, logs: map<string, Log>, lt: nat)
    requires LogsAgree(home, loop, tick, rooms, listeners, logs)
    requires lt in listeners ==> !listeners[lt].phase.Encoded?
    ensures LogsAgree(home, loop, tick, rooms, listeners - {lt}, logs)
  {
    hide LogOk, Served, PhaseOk;
  }

  /** A listener task moves on and so does its endpoint's log, and nobody else has anything
      to do with that log. */
  lemma LogsAfterSend(home: string -> RoomKey, loop: Loop, tick: nat, rooms: map<nat, RoomTask>,
                      listeners: map<nat, ListenerTask>, logs: map<string, Log>, lt: nat, task: ListenerTask, log: Log)
    requires LogsAgree(home, loop, tick, rooms, listeners, logs)
    requires lt in listeners && task.id == listeners[lt].id && task.id in logs
    requires forall lu :: lu in listeners && listeners[lu].id == task.id ==> lu == lt
    requires forall rt :: rt in rooms ==> task.id !in rooms[rt].todo
    requires loop.Spawning? ==> home(task.id) in loop.done
    requires LogOk(log, tick) && HolderOk(task.id, log, listeners[lt := task])
    requires PhaseOk(task, logs[task.id := log], tick)
    ensures LogsAgree(home, loop, tick, rooms, listeners[lt := task], logs[task.id := log])
  {
    var listeners', logs' := listeners[lt := task], logs[task.id := log];
    forall id | id in logs && id != task.id
      ensures HolderOk(id, logs[id], listeners')
    {
    }
    forall lu | lu in listeners && lu != lt
      ensures PhaseOk(listeners[lu], logs', tick)
    {
      assert PhaseOk(listeners[lu], logs, tick);
    }
    hide LogOk, Served, PhaseOk, HolderOk;
  }

  /** The track takes a packet, after its task is done. */
  lemma LogsAfterWrite(home: string -> RoomKey, loop: Loop, tick: nat, rooms: map<nat, RoomTask>,
                       listeners: map<nat, ListenerTask>, logs: map<string, Log>, id: string, log: Log)
    requires LogsAgree(home, loop, tick, rooms, listeners, logs) && id in logs
    requires forall lu :: lu in listeners ==> listeners[lu].id != id
    requires log == logs[id].(written := log.written) && LogOk(log, tick)
    ensures LogsAgree(home, loop, tick, rooms, listeners, logs[id := log])
  {
    var logs' := logs[id := log];
    forall lu | lu in listeners
      ensures PhaseOk(listeners[lu], logs', tick)
    {
      assert PhaseOk(listeners[lu], logs, tick);
    }
    assert Served(log, tick) <==> Served(logs[id], tick);
    assert HolderOk(id, logs[id], listeners);
    hide LogOk, Served, PhaseOk;
  }

  // The three steps of `send_mix`, on one log.

  lemma EncodeLog(log: Log, tick: nat, lt: nat)
    requires LogOk(log, tick) && !Served(log, tick) && |log.encoded| == |log.stamped|
    ensures LogOk(log.(encoded := log.encoded + [tick], holder := lt), tick)
  {
    var encoded := log.encoded + [tick];
    forall i | 0 <= i < |log.encoded|
      ensures log.encoded[i] < tick
    {
      assert log.encoded[i] in log.encoded;
    }
  }

  lemma StampLog(log: Log, tick: nat)
    requires LogOk(log, tick) && |log.encoded| == |log.stamped| + 1 && log.encoded[|log.stamped|] == tick
    ensures var packet := Sent(tick, log.clock);
            var log' := log.(stamped := log.stamped + [packet], clock := (log.clock + Mixer.FRAME_SAMPLES) % U32);
            LogOk(log', tick) && forall p :: p in log.written ==> p.tick < tick
  {
    Rtp.NextStamp(log.start, |log.stamped|);
    forall p | p in log.written
      ensures p.tick < tick
    {
      assert p in log.stamped;
      var k: nat :| k < |log.stamped| && log.stamped[k] == p;
      assert log.encoded[k] < log.encoded[|log.stamped|];
    }
  }

  lemma WriteLog(log: Log, tick: nat, packet: Sent)
    requires LogOk(log, tick) && packet in log.stamped && packet.tick == tick
    requires forall p :: p in log.written ==> p.tick < tick
    ensures LogOk(log.(written := log.written + [packet]), tick)
  {
    forall i | 0 <= i < |log.written|
      ensures log.written[i].tick < tick
    {
      assert log.written[i] in log.written;
    }
  }

  lemma LogsKeptByLoop(home: string -> RoomKey, s: State, a: Action)
    requires Enabled(home, s, a) && TasksInv(home, s) && LogsInv(home, s) && IsLoopStep(a)
    ensures LogsInv(home, Next(home, s, a))
  {
    if a.TickFires? && s.inflight == 0 {
      NoTasks(home, s);
      LogsAfterTick(home, s);
    }
    if a.SpawnRoom? {
      forall id | id in a.members && id in s.logs
        ensures !Served(s.logs[id], s.tick)
      {
        assert home(id) == a.room;
      }
    }
    hide TasksInv, LogsAgree, Served;
    match a
    case AddEndpoint(id, start) => LogsAfterEndpoint(home, s.loop, s.tick, s.rooms, s.listeners, s.logs, id, start);
    case TickFires(keys) =>
    case SpawnRoom(rt, room, members) =>
      var loop := Spawning(s.loop.done + {room});
      LogsAfterLoop(home, s.loop, loop, s.tick, s.rooms, s.listeners, s.logs);
      LogsAfterRoom(home, loop, s.tick, s.rooms, s.listeners, s.logs, rt, RoomTask(room, s.tick, false, members, {}));
    case SkipRoom(room, members) =>
      LogsAfterLoop(home, s.loop, Spawning(s.loop.done + {room}), s.tick, s.rooms, s.listeners, s.logs);
    case EndTick => LogsAfterLoop(home, s.loop, Waiting, s.tick, s.rooms, s.listeners, s.logs);
  }

  lemma LogsKeptByRoom(home: string -> RoomKey, s: State, a: Action)
    requires Enabled(home, s, a) && TasksInv(home, s) && LogsInv(home, s) && IsRoomStep(a)
    ensures LogsInv(home, Next(home, s, a))
  {
    var task := s.rooms[a.rt];
    assert forall id :: id in task.todo && id in s.logs ==> !Served(s.logs[id], s.tick);
    assert TaskOk(home, s.loop, s.tick, task);
    hide RoomsAgree, ListenersAgree, LogsAgree, TaskOk, Served;
    match a
    case Mix(rt) =>
      LogsAfterRoom(home, s.loop, s.tick, s.rooms, s.listeners, s.logs, rt, task.(mixed := true));
    case SpawnListener(rt, lt) =>
      var id := task.todo[0];
      assert id in task.todo;
      var task' := task.(todo := task.todo[1..], spawned := task.spawned + {id});
      LogsAfterRoom(home, s.loop, s.tick, s.rooms, s.listeners, s.logs, rt, task');
      LogsAfterListener(home, s.loop, s.tick, s.rooms[rt := task'], s.listeners, s.logs, lt,
                        ListenerTask(rt, id, task.tick, Ready));
    case FinishRoom(rt) =>
      LogsAfterFinish(home, s.loop, s.tick, s.rooms, s.listeners, s.logs, rt);
  }

  /** Where the session of an unfinished listener task stands. */
  lemma ListenerStands(home: string -> RoomKey, s: State, lt: nat)
    requires TasksInv(home, s) && lt in s.listeners
    ensures var id := s.listeners[lt].id;
            && s.listeners[lt].tick == s.tick
            && (forall lu :: lu in s.listeners && s.listeners[lu].id == id ==> lu == lt)
            && (forall rt :: rt in s.rooms ==> id !in s.rooms[rt].todo)
            && (s.loop.Spawning? ==> home(id) in s.loop.done)
  {
    var id := s.listeners[lt].id;
    var parent := s.listeners[lt].parent;
    assert TaskOk(home, s.loop, s.tick, s.rooms[parent]);
    forall rt | rt in s.rooms
      ensures id !in s.rooms[rt].todo
    {
      assert TaskOk(home, s.loop, s.tick, s.rooms[rt]);
    }
  }

  lemma LogStands(home: string -> RoomKey, s: State, lt: nat)
    requires LogsInv(home, s) && lt in s.listeners
    ensures PhaseOk(s.listeners[lt], s.logs, s.tick)
    ensures s.listeners[lt].id in s.logs ==>
              && LogOk(s.logs[s.listeners[lt].id], s.tick)
              && HolderOk(s.listeners[lt].id, s.logs[s.listeners[lt].id], s.listeners)
  {
  }

  lemma LogsKeptByListener(home: string -> RoomKey, s: State, a: Action)
    requires Enabled(home, s, a) && TasksInv(home, s) && LogsInv(home, s) && !IsLoopStep(a) && !IsRoomStep(a)
    ensures LogsInv(home, Next(home, s, a))
  {
    hide RoomsAgree, ListenersAgree, LogsAgree, LogOk;
    ListenerStands(home, s, a.lt);
    LogStands(home, s, a.lt);
    var task := s.listeners[a.lt];
    match a
    case LookUp(lt, reachable) =>
      if reachable {
        LogsAfterListener(home, s.loop, s.tick, s.rooms, s.listeners, s.logs, lt, task.(phase := Sending));
      } else {
        LogsAfterDone(home, s.loop, s.tick, s.rooms, s.listeners, s.logs, lt);
      }
    case Encode(lt, ok) =>
      if ok {
        var log := s.logs[task.id];
        EncodeLog(log, s.tick, lt);
        LogsAfterSend(home, s.loop, s.tick, s.rooms, s.listeners, s.logs, lt, task.(phase := Encoded),
                      log.(encoded := log.encoded + [task.tick], holder := lt));
      } else {
        LogsAfterDone(home, s.loop, s.tick, s.rooms, s.listeners, s.logs, lt);
      }
    case TakeStamp(lt) =>
      var log := s.logs[task.id];
      StampLog(log, s.tick);
      var packet := Sent(task.tick, log.clock);
      LogsAfterSend(home, s.loop, s.tick, s.rooms, s.listeners, s.logs, lt, task.(phase := Stamped(packet)),
                    log.(stamped := log.stamped + [packet], clock := (log.clock + Mixer.FRAME_SAMPLES) % U32));
    case Write(lt, ok) =>
      var log := s.logs[task.id];
      LogsAfterDone(home, s.loop, s.tick, s.rooms, s.listeners, s.logs, lt);
      if ok {
        WriteLog(log, s.tick, task.phase.packet);
        LogsAfterWrite(home, s.loop, s.tick, s.rooms, s.listeners - {lt}, s.logs, task.id,
                       log.(written := log.written + [task.phase.packet]));
      }
  }

  lemma LogsKept(home: string -> RoomKey, s: State, a: Action)
    requires Enabled(home, s, a) && TasksInv(home, s) && LogsInv(home, s)
    ensures LogsInv(home, Next(home, s, a))
  {
    hide TasksInv, LogsInv, Next, Enabled;
    if IsLoopStep(a) {
      LogsKeptByLoop(home, s, a);
    } else if IsRoomStep(a) {
      LogsKeptByRoom(home, s, a);
    } else {
      LogsKeptByListener(home, s, a);
    }
  }

  lemma {:induction false} EveryRunKeeps(home: string -> RoomKey, run: seq<Action>)
    requires Possible(home, run)
    ensures TasksInv(home, After(home, run)) && LogsInv(home, After(home, run))
  {
    hide TasksInv, LogsInv, Next, Enabled;
    if run == [] {
      InitHolds(home);
    } else {
      var before, a := run[..|run| - 1], run[|run| - 1];
      EveryRunKeeps(home, before);
      TasksKept(home, After(home, before), a);
      LogsKept(home, After(home, before), a);
    }
  }

  lemma InitHolds(home: string -> RoomKey)
    ensures TasksInv(home, INIT) && LogsInv(home, INIT)
  {
  }

  // ---------------------------------------------------------------------------
  // What holds in every run
  // ---------------------------------------------------------------------------

  /** The overload guard: `inflight` is the number of unfinished room tasks. They all belong
      to the latest tick, one for a room at most, and the unfinished listener tasks belong to
      them, one for a session at most, and begin only once their room is mixed: no two calls of
      `send_mix` on one endpoint overlap. */
  lemma InflightTheorem(home: string -> RoomKey, run: seq<Action>)
    requires Possible(home, run)
    ensures var s := After(home, run);
            && s.inflight == |s.rooms|
            && (forall rt :: rt in s.rooms ==> s.rooms[rt].tick == s.tick)
            && (forall rt, ru :: rt in s.rooms && ru in s.rooms && rt != ru ==> s.rooms[rt].room != s.rooms[ru].room)
            && (forall lt :: lt in s.listeners ==>
                  && s.listeners[lt].tick == s.tick && s.listeners[lt].parent in s.rooms
                  && s.rooms[s.listeners[lt].parent].mixed)
            && (forall lt, lu :: lt in s.listeners && lu in s.listeners && lt != lu ==>
                  s.listeners[lt].id != s.listeners[lu].id)
  {
    hide Possible, After;
    EveryRunKeeps(home, run);
    var s := After(home, run);
    forall lt | lt in s.listeners
      ensures s.rooms[s.listeners[lt].parent].mixed
    {
      assert TaskOk(home, s.loop, s.tick, s.rooms[s.listeners[lt].parent]);
    }
  }

  /** A tick does anything at all exactly when all work of the previous one is finished. */
  lemma TickTheorem(home: string -> RoomKey, run: seq<Action>, keys: set<RoomKey>)
    requires Possible(home, run) && Enabled(home, After(home, run), TickFires(keys))
    ensures var s := After(home, run);
            var s' := Next(home, s, TickFires(keys));
            && (s'.tick == s.tick + 1 <==> s.rooms == map[])
            && (s'.tick == s.tick + 1 ==> s.listeners == map[])
            && (s'.tick == s.tick ==> s' == s.(skipped := s.skipped + 1))
  {
    var s := After(home, run);
    EveryRunKeeps(home, run);
    if s.inflight == 0 {
      NoTasks(home, s);
    }
  }

  /** Every endpoint's frames leave in tick order, at most one a tick; the k-th frame its
      encoder accepted carries the k-th time stamp; and two of its frames carry the same
      stamp only if a multiple of 2^26 frames lies between them. */
  lemma StreamTheorem(home: string -> RoomKey, run: seq<Action>, id: string)
    requires Possible(home, run) && id in After(home, run).logs
    ensures var log := After(home, run).logs[id];
            && (forall i, j :: 0 <= i < j < |log.written| ==> log.written[i].tick < log.written[j].tick)
            && (forall p :: p in log.written ==> p in log.stamped)
            && (forall i, j :: 0 <= i < j < |log.stamped| ==> log.stamped[i].tick < log.stamped[j].tick)
            && |log.stamped| <= |log.encoded| <= |log.stamped| + 1
            && (forall k: nat :: k < |log.stamped| ==> log.stamped[k] == Sent(log.encoded[k], Rtp.Stamp(log.start, k)))
            && (forall i, j :: 0 <= i < j < |log.stamped| && j - i < 0x400_0000 ==>
                  log.stamped[i].stamp != log.stamped[j].stamp)
  {
    hide Possible, After;
    EveryRunKeeps(home, run);
    var log := After(home, run).logs[id];
    assert LogOk(log, After(home, run).tick);
    forall i: nat, j: nat | i < j < |log.stamped| && j - i < 0x400_0000
      ensures log.stamped[i].stamp != log.stamped[j].stamp
    {
      Rtp.StampsRepeat(log.start, j, i);
    }
  }

  // ---------------------------------------------------------------------------
  // Nobody is left out
  // ---------------------------------------------------------------------------

  /** Still to be spawned a listener task for. */
  predicate IsPending(rooms: map<nat, RoomTask>, id: string) {
    exists rt :: rt in rooms && id in rooms[rt].todo
  }

  /** The session was found in a room with company. */
  predicate HasCompany(home: string -> RoomKey, lists: map<RoomKey, seq<string>>, id: string) {
    home(id) in lists && id in lists[home(id)] && |lists[home(id)]| >= 2
  }

  ghost predicate Covered(home: string -> RoomKey, loop: Loop, rooms: map<nat, RoomTask>, keys: set<RoomKey>,
                          lists: map<RoomKey, seq<string>>, called: set<string>)
  {
    && (if loop.Spawning? then lists.Keys == loop.done else keys <= lists.Keys)
    && (forall id :: HasCompany(home, lists, id) ==> id in called || IsPending(rooms, id))
    && (forall id :: id in called || IsPending(rooms, id) ==> HasCompany(home, lists, id))
    && (forall room, id :: room in lists && |lists[room]| >= 2 && id in lists[room] ==> home(id) == room)
  }

  ghost predicate CoverInv(home: string -> RoomKey, s: State) {
    Covered(home, s.loop, s.rooms, s.keys, s.lists, s.called)
  }

  lemma CoverAfterSpawnRoom(home: string -> RoomKey, s: State, a: Action)
    requires Enabled(home, s, a) && CoverInv(home, s) && a.SpawnRoom?
    ensures CoverInv(home, Next(home, s, a))
  {
    var s' := Next(home, s, a);
    assert s'.rooms[a.rt].todo == a.members;
    forall id
      ensures IsPending(s'.rooms, id) <==> IsPending(s.rooms, id) || id in a.members
    {
      if rt :| rt in s.rooms && id in s.rooms[rt].todo {
        assert s'.rooms[rt] == s.rooms[rt];
      }
    }
    forall id
      ensures HasCompany(home, s'.lists, id) <==> HasCompany(home, s.lists, id) || id in a.members
    {
    }
    hide IsPending, HasCompany;
  }

  lemma CoverAfterSkipRoom(home: string -> RoomKey, s: State, a: Action)
    requires Enabled(home, s, a) && CoverInv(home, s) && a.SkipRoom?
    ensures CoverInv(home, Next(home, s, a))
  {
    var s' := Next(home, s, a);
    forall id
      ensures HasCompany(home, s'.lists, id) <==> HasCompany(home, s.lists, id)
    {
    }
    hide HasCompany, IsPending;
  }

  lemma CoverAfterSpawnListener(home: string -> RoomKey, s: State, a: Action)
    requires Enabled(home, s, a) && CoverInv(home, s) && a.SpawnListener?
    ensures CoverInv(home, Next(home, s, a))
  {
    var s', task := Next(home, s, a), s.rooms[a.rt];
    var first, rest := task.todo[0], task.todo[1..];
    assert task.todo == [first] + rest;
    assert s'.rooms[a.rt].todo == rest;
    assert IsPending(s.rooms, first);
    forall id
      ensures IsPending(s'.rooms, id) ==> IsPending(s.rooms, id)
      ensures IsPending(s.rooms, id) ==> IsPending(s'.rooms, id) || id == first
    {
      if rt :| rt in s.rooms && id in s.rooms[rt].todo {
        assert rt in s'.rooms && (id in s'.rooms[rt].todo || (rt == a.rt && id == first));
      }
    }
    hide IsPending, HasCompany;
  }

  lemma CoverAfterFinish(home: string -> RoomKey, s: State, a: Action)
    requires Enabled(home, s, a) && CoverInv(home, s) && (a.FinishRoom? || a.Mix?)
    ensures CoverInv(home, Next(home, s, a))
  {
    var s' := Next(home, s, a);
    forall id
      ensures IsPending(s'.rooms, id) <==> IsPending(s.rooms, id)
    {
      if rt :| rt in s.rooms && id in s.rooms[rt].todo {
        assert rt in s'.rooms && s'.rooms[rt].todo == s.rooms[rt].todo;
      }
      if rt :| rt in s'.rooms && id in s'.rooms[rt].todo {
        assert rt in s.rooms && s'.rooms[rt].todo == s.rooms[rt].todo;
      }
    }
    hide IsPending, HasCompany;
  }

  lemma CoverAfterTick(home: string -> RoomKey, s: State, a: Action)
    requires Enabled(home, s, a) && TasksInv(home, s) && CoverInv(home, s) && a.TickFires?
    ensures CoverInv(home, Next(home, s, a))
  {
    if s.inflight == 0 {
      NoTasks(home, s);
    }
    hide TasksInv;
  }

  lemma CoverKept(home: string -> RoomKey, s: State, a: Action)
    requires Enabled(home, s, a) && TasksInv(home, s) && CoverInv(home, s)
    ensures CoverInv(home, Next(home, s, a))
  {
    hide TasksInv, Covered;
    match a
    case AddEndpoint(id, start) =>
    case TickFires(keys) => CoverAfterTick(home, s, a);
    case SpawnRoom(rt, room, members) => CoverAfterSpawnRoom(home, s, a);
    case SkipRoom(room, members) => CoverAfterSkipRoom(home, s, a);
    case EndTick => CoverAfterEnd(home, s, a);
    case Mix(rt) => CoverAfterFinish(home, s, a);
    case SpawnListener(rt, lt) => CoverAfterSpawnListener(home, s, a);
    case FinishRoom(rt) => CoverAfterFinish(home, s, a);
    case LookUp(lt, reachable) =>
    case Encode(lt, ok) =>
    case TakeStamp(lt) =>
    case Write(lt, ok) =>
  }

  lemma CoverAfterEnd(home: string -> RoomKey, s: State, a: Action)
    requires Enabled(home, s, a) && CoverInv(home, s) && a.EndTick?
    ensures CoverInv(home, Next(home, s, a))
  {
    hide IsPending, HasCompany;
  }

  lemma {:induction false} EveryRunCovers(home: string -> RoomKey, run: seq<Action>)
    requires Possible(home, run)
    ensures CoverInv(home, After(home, run))
  {
    hide TasksInv, LogsInv, CoverInv, Next, Enabled;
    if run == [] {
      CoverAtStart(home);
    } else {
      var before, a := run[..|run| - 1], run[|run| - 1];
      EveryRunCovers(home, before);
      EveryRunKeeps(home, before);
      CoverKept(home, After(home, before), a);
    }
  }

  lemma CoverAtStart(home: string -> RoomKey)
    ensures CoverInv(home, INIT)
  {
  }

  /** When a tick and all its work are over, it has come to every room it found, and of those
      that it read there exactly the members with company were spawned a listener task for. */
  lemma NobodyIsLeftOut(home: string -> RoomKey, run: seq<Action>, room: RoomKey, id: string)
    requires Possible(home, run) && After(home, run).loop.Waiting? && After(home, run).rooms == map[]
    requires room in After(home, run).keys
    ensures var s := After(home, run);
            && room in s.lists
            && (|s.lists[room]| >= 2 && id in s.lists[room] ==> id in s.called)
            && (id in s.called ==> home(id) in s.lists && id in s.lists[home(id)] && |s.lists[home(id)]| >= 2)
  {
    hide Possible, After;
    EveryRunCovers(home, run);
    var s := After(home, run);
    assert !IsPending(s.rooms, id);
    assert HasCompany(home, s.lists, id) ==> id in s.called;
    assert id in s.called ==> HasCompany(home, s.lists, id);
  }

  // ---------------------------------------------------------------------------
  // The three steps of one call
  // ---------------------------------------------------------------------------

  /** A frame that the encoder refuses leaves no trace in any log. */
  lemma RefusedFrame(home: string -> RoomKey, s: State, lt: nat)
    requires lt in s.listeners && s.listeners[lt].phase.Sending? && s.listeners[lt].id in s.logs
    ensures Enabled(home, s, Encode(lt, false)) && Next(home, s, Encode(lt, false)).logs == s.logs
    ensures lt !in Next(home, s, Encode(lt, false)).listeners
  {
  }

  /** What one call of `send_mix` does to the logs when its steps are taken together: a frame
      that the encoder takes uses up a stamp, the track may still refuse it, and no other
      endpoint is concerned. */
  lemma SendMixAtOnce(home: string -> RoomKey, s: State, lt: nat, takes: bool)
    requires lt in s.listeners && s.listeners[lt].phase.Sending? && s.listeners[lt].id in s.logs
    ensures var task := s.listeners[lt];
            var log := s.logs[task.id];
            var s1 := Next(home, s, Encode(lt, true));
            Enabled(home, s, Encode(lt, true)) && Enabled(home, s1, TakeStamp(lt)) &&
            var s2 := Next(home, s1, TakeStamp(lt));
            Enabled(home, s2, Write(lt, takes)) &&
            var s3 := Next(home, s2, Write(lt, takes));
            var packet := Sent(task.tick, log.clock);
            && lt !in s3.listeners
            && s3.logs == s.logs[task.id := Log(log.start, (log.clock + 960) % 0x1_0000_0000, log.encoded + [task.tick],
                                                log.stamped + [packet],
                                                if takes then log.written + [packet] else log.written, lt)]
  {
  }
}
