/** One session's control state and frame queue (`Session`, src/room.rs). */
module Room {
  import opened Wrappers
  import opened RealMath
  import opened Mixer
  import opened Proto
  import Spatial

  const JITTER_MAX_FRAMES := 10

  datatype RoomKey = SpatialRoom(region: string, parcel: int) | MultiAgentRoom(channel: string)

  datatype SpatialState = SpatialState(
    avatarPos: Vec3, avatarRot: Quat, listenerPos: Vec3, listenerRot: Quat, known: bool)

  const IDENTITY := SpatialState(
    Vec3(0.0, 0.0, 0.0), Quat(0.0, 0.0, 0.0, 1.0), Vec3(0.0, 0.0, 0.0), Quat(0.0, 0.0, 0.0, 1.0), false)

  /** Everything a data-channel message can change. */
  datatype Control = Control(
    joined: bool, primary: bool, state: SpatialState, gains: map<string, real>, mutes: map<string, bool>)

  const NEW_CONTROL := Control(false, false, IDENTITY, map[], map[])

  // ---------------------------------------------------------------------------
  // What `apply_data` computes
  // ---------------------------------------------------------------------------

  function StateAfter(m: Libm, s: SpatialState, msg: Message): SpatialState
    requires m.Laws()
  {
    if msg.avatarPos.None? && msg.avatarRot.None? && msg.listenerPos.None? && msg.listenerRot.None? then s
    else
      var known := s.known || msg.avatarPos.Some?;
      var avatar := if msg.avatarPos.Some? then msg.avatarPos.value else s.avatarPos;
      var ear := if msg.listenerPos.Some? then msg.listenerPos.value else s.listenerPos;
      SpatialState(
        avatar,
        if msg.avatarRot.Some? then msg.avatarRot.value else s.avatarRot,
        if known then Tether(m, ear, avatar) else ear,
        if msg.listenerRot.Some? then msg.listenerRot.value else s.listenerRot,
        known)
  }

  function GainOf(raw: int): real {
    Clamp(raw as real / PEER_GAIN_CONVERSION_FACTOR, 0.0, MAX_PEER_GAIN)
  }

  /** A new key needs room; an existing key is always updated. */
  function PutCapped<V>(prefs: map<string, V>, key: string, value: V): map<string, V> {
    if |prefs| < MAX_PEER_ENTRIES || key in prefs then prefs[key := value] else prefs
  }

  function GainsAfter(g: map<string, real>, entries: seq<(string, int)>): map<string, real> {
    if entries == [] then g
    else
      var (k, raw) := entries[|entries| - 1];
      PutCapped(GainsAfter(g, entries[..|entries| - 1]), k, GainOf(raw))
  }

  function MutesAfter(mu: map<string, bool>, entries: seq<(string, bool)>): map<string, bool> {
    if entries == [] then mu
    else
      var (k, muted) := entries[|entries| - 1];
      PutCapped(MutesAfter(mu, entries[..|entries| - 1]), k, muted)
  }

  function Applied(m: Libm, c: Control, msg: Message): Control
    requires m.Laws()
  {
    Control(
      c.joined || msg.join.Some?,
      if msg.join.Some? then msg.join.value else c.primary,
      StateAfter(m, c.state, msg),
      GainsAfter(c.gains, msg.userGain),
      MutesAfter(c.mutes, msg.userMute))
  }

  function PeerGainOf(gains: map<string, real>, mutes: map<string, bool>, speaker: string): real {
    if speaker in mutes && mutes[speaker] then 0.0
    else if speaker in gains then gains[speaker]
    else 1.0
  }

  /** A session may be heard from only where its ear is tethered to its avatar, and its
      preferences stay within their bounds. */
  ghost predicate Sound(c: Control) {
    && (c.state.known ==> Spatial.InBall(c.state.listenerPos, c.state.avatarPos))
    && |c.gains| <= MAX_PEER_ENTRIES && |c.mutes| <= MAX_PEER_ENTRIES
    && (forall k :: k in c.gains ==> 0.0 <= c.gains[k] <= MAX_PEER_GAIN)
  }

  // ---------------------------------------------------------------------------
  // The frame queue
  // ---------------------------------------------------------------------------

  function Pushed(q: seq<Frame>, f: Frame): seq<Frame> {
    (if |q| >= JITTER_MAX_FRAMES then q[1..] else q) + [f]
  }

  function TakenFrom(q: seq<Frame>): (Option<Frame>, seq<Frame>) {
    if q == [] then (None, q) else (Some(q[0]), q[1..])
  }

  function LevelOf(m: Libm, frame: Option<Frame>): int {
    if frame.Some? then LevelToWire(m, frame.value) else 0
  }

  // ---------------------------------------------------------------------------
  // The session object
  // ---------------------------------------------------------------------------

  class Session {
    const id: string
    const agentId: string
    const room: RoomKey
    const spatial: bool
    var state: SpatialState
    var gains: map<string, real>
    var mutes: map<string, bool>
    var inbound: seq<Frame>
    var level: int
    var joined: bool
    var primary: bool
    var closed: bool
    var wasSpeaking: bool
    var announced: set<string>

    function Controls(): Control
      reads this
    {
      Control(joined, primary, state, gains, mutes)
    }

    ghost predicate Valid()
      reads this
    {
      Sound(Controls()) && |inbound| <= JITTER_MAX_FRAMES
    }

    constructor (id: string, agentId: string, room: RoomKey, spatial: bool)
      ensures Valid() && Controls() == NEW_CONTROL && inbound == [] && announced == {}
      ensures this.id == id && this.agentId == agentId && this.room == room && this.spatial == spatial
      ensures level == 0 && !closed && !wasSpeaking && !joined && !primary && gains == map[] && mutes == map[]
      ensures state.avatarPos == state.listenerPos == Vec3(0.0, 0.0, 0.0) && !state.known
      ensures state.avatarRot == state.listenerRot == Quat(0.0, 0.0, 0.0, 1.0)
    {
      this.id, this.agentId, this.room, this.spatial := id, agentId, room, spatial;
      state, gains, mutes := IDENTITY, map[], map[];
      inbound, level, announced := [], 0, {};
      joined, primary, closed, wasSpeaking := false, false, false, false;
    }

    method UpdateLevel(m: Libm, frame: Option<Frame>) returns (now: int)
      modifies this`level, this`wasSpeaking
      ensures now == level == LevelOf(m, frame)
      ensures now == if frame.Some? then LevelToWire(m, frame.value) else 0
      ensures wasSpeaking == Speaking(now)
    {
      now := if frame.Some? then LevelToWire(m, frame.value) else 0;
      level := now;
      wasSpeaking := Speaking(now);
    }

    method PushFrame(frame: Frame)
      requires Valid()
      modifies this`inbound
      ensures Valid() && inbound == Pushed(old(inbound), frame)
    {
      if |inbound| >= JITTER_MAX_FRAMES {
        inbound := inbound[1..];
      }
      inbound := inbound + [frame];
    }

    method TakeFrame() returns (frame: Option<Frame>)
      modifies this`inbound
      ensures (frame, inbound) == TakenFrom(old(inbound))
    {
      if inbound == [] {
        return None;
      }
      frame := Some(inbound[0]);
      inbound := inbound[1..];
    }

    method ApplyData(m: Libm, msg: Message)
      requires m.Laws() && Valid()
      modifies this`joined, this`primary, this`state, this`gains, this`mutes
      ensures Valid() && Controls() == Applied(m, old(Controls()), msg)
    {
      SoundIsKept(m, Controls(), msg);
      hide Libm.Laws, StateAfter, GainsAfter, MutesAfter, Sound;
      if msg.join.Some? {
        joined := true;
        primary := msg.join.value;
      }
      Place(m, msg);
      AddGains(msg.userGain);
      AddMutes(msg.userMute);
    }

    /** The position half of `apply_data`. */
    method Place(m: Libm, msg: Message)
      requires m.Laws()
      modifies this`state
      ensures state == StateAfter(m, old(state), msg)
    {
      hide Libm.Laws, Tether;
      if msg.avatarPos.Some? || msg.avatarRot.Some? || msg.listenerPos.Some? || msg.listenerRot.Some? {
        var s := state;
        if msg.avatarPos.Some? {
          s := s.(avatarPos := msg.avatarPos.value, known := true);
        }
        if msg.avatarRot.Some? {
          s := s.(avatarRot := msg.avatarRot.value);
        }
        if msg.listenerPos.Some? {
          s := s.(listenerPos := msg.listenerPos.value);
        }
        if msg.listenerRot.Some? {
          s := s.(listenerRot := msg.listenerRot.value);
        }
        if s.known {
          s := s.(listenerPos := Tether(m, s.listenerPos, s.avatarPos));
        }
        state := s;
      }
    }

    /** The volume half of `apply_data`. */
    method AddGains(entries: seq<(string, int)>)
      modifies this`gains
      ensures gains == GainsAfter(old(gains), entries)
    {
      for i := 0 to |entries|
        invariant gains == GainsAfter(old(gains), entries[..i])
      {
        assert entries[..i + 1][..i] == entries[..i];
        var (id, raw) := entries[i];
        var gain := Clamp(raw as real / PEER_GAIN_CONVERSION_FACTOR, 0.0, MAX_PEER_GAIN);
        if |gains| < MAX_PEER_ENTRIES || id in gains {
          gains := gains[id := gain];
        }
      }
      assert entries[..|entries|] == entries;
    }

    /** The mute half of `apply_data`. */
    method AddMutes(entries: seq<(string, bool)>)
      modifies this`mutes
      ensures mutes == MutesAfter(old(mutes), entries)
    {
      for i := 0 to |entries|
        invariant mutes == MutesAfter(old(mutes), entries[..i])
      {
        assert entries[..i + 1][..i] == entries[..i];
        var (id, muted) := entries[i];
        if |mutes| < MAX_PEER_ENTRIES || id in mutes {
          mutes := mutes[id := muted];
        }
      }
      assert entries[..|entries|] == entries;
    }

    function PeerGain(speaker: string): real
      reads this`gains, this`mutes
    {
      PeerGainOf(gains, mutes, speaker)
    }

    method MarkAnnounced(agent: string) returns (fresh_: bool)
      modifies this`announced
      ensures fresh_ == (agent !in old(announced)) && announced == old(announced) + {agent}
    {
      fresh_ := agent !in announced;
      announced := announced + {agent};
    }

    method ForgetAnnounced(agent: string)
      modifies this`announced
      ensures announced == old(announced) - {agent}
    {
      announced := announced - {agent};
    }
  }

  // ---------------------------------------------------------------------------
  // Any sequence of messages
  // ---------------------------------------------------------------------------

  lemma PutCappedBounds<V>(prefs: map<string, V>, key: string, value: V)
    requires |prefs| <= MAX_PEER_ENTRIES
    ensures |PutCapped(prefs, key, value)| <= MAX_PEER_ENTRIES
    ensures key in prefs ==> PutCapped(prefs, key, value) == prefs[key := value]
  {
    if key in prefs {
      assert prefs[key := value].Keys == prefs.Keys;
    } else {
      assert prefs[key := value].Keys == prefs.Keys + {key};
    }
  }

  lemma {:induction false} GainsStaySound(g: map<string, real>, entries: seq<(string, int)>)
    requires |g| <= MAX_PEER_ENTRIES && forall k :: k in g ==> 0.0 <= g[k] <= MAX_PEER_GAIN
    ensures var g' := GainsAfter(g, entries);
            && |g'| <= MAX_PEER_ENTRIES && g.Keys <= g'.Keys
            && (forall k :: k in g' ==> 0.0 <= g'[k] <= MAX_PEER_GAIN)
  {
    if entries != [] {
      var before := entries[..|entries| - 1];
      GainsStaySound(g, before);
      var (k, raw) := entries[|entries| - 1];
      PutCappedBounds(GainsAfter(g, before), k, GainOf(raw));
    }
  }

  lemma {:induction false} MutesStaySound(mu: map<string, bool>, entries: seq<(string, bool)>)
    requires |mu| <= MAX_PEER_ENTRIES
    ensures |MutesAfter(mu, entries)| <= MAX_PEER_ENTRIES && mu.Keys <= MutesAfter(mu, entries).Keys
  {
    if entries != [] {
      var before := entries[..|entries| - 1];
      MutesStaySound(mu, before);
      var (k, muted) := entries[|entries| - 1];
      PutCappedBounds(MutesAfter(mu, before), k, muted);
    }
  }

  lemma SoundIsKept(m: Libm, c: Control, msg: Message)
    requires m.Laws() && Sound(c)
    ensures Sound(Applied(m, c, msg))
  {
    hide Libm.Laws, Tether, Spatial.InBall;
    GainsStaySound(c.gains, msg.userGain);
    MutesStaySound(c.mutes, msg.userMute);
    var avatar := if msg.avatarPos.Some? then msg.avatarPos.value else c.state.avatarPos;
    var ear := if msg.listenerPos.Some? then msg.listenerPos.value else c.state.listenerPos;
    Spatial.TetherInBall(m, ear, avatar);
  }

  function AppliedAll(m: Libm, c: Control, msgs: seq<Message>): Control
    requires m.Laws()
  {
    if msgs == [] then c else Applied(m, AppliedAll(m, c, msgs[..|msgs| - 1]), msgs[|msgs| - 1])
  }

  /** After any messages a new session is sent: a known ear is within 50 m of its avatar,
      both preference maps hold at most 256 peers, and every gain is in [0, 4]. */
  lemma {:induction false} EverySequenceIsSound(m: Libm, msgs: seq<Message>)
    requires m.Laws()
    ensures Sound(AppliedAll(m, NEW_CONTROL, msgs))
    ensures var c := AppliedAll(m, NEW_CONTROL, msgs);
            && |c.gains| <= 256 && |c.mutes| <= 256
            && (forall k :: k in c.gains ==> 0.0 <= c.gains[k] <= 4.0)
            && (c.state.known ==> Dist2(c.state.listenerPos, c.state.avatarPos) <= 50.0 * 50.0)
  {
    hide Libm.Laws, Dist2, Applied;
    if msgs != [] {
      EverySequenceIsSound(m, msgs[..|msgs| - 1]);
      SoundIsKept(m, AppliedAll(m, NEW_CONTROL, msgs[..|msgs| - 1]), msgs[|msgs| - 1]);
    }
  }

  /** A position is known exactly when some message carried the avatar's position. */
  lemma {:induction false} KnownMeansReported(m: Libm, msgs: seq<Message>)
    requires m.Laws()
    ensures AppliedAll(m, NEW_CONTROL, msgs).state.known
            <==> exists i :: 0 <= i < |msgs| && msgs[i].avatarPos.Some?
  {
    if msgs != [] {
      var before := msgs[..|msgs| - 1];
      KnownMeansReported(m, before);
      if exists i :: 0 <= i < |msgs| && msgs[i].avatarPos.Some? {
        var i :| 0 <= i < |msgs| && msgs[i].avatarPos.Some?;
        if i < |before| {
          assert before[i].avatarPos.Some?;
        }
      }
    }
  }

  /** The last value some messages report, if any does. */
  function LastOf<T>(reports: seq<Option<T>>, default_: T): T {
    if reports == [] then default_
    else if reports[|reports| - 1].Some? then reports[|reports| - 1].value
    else LastOf(reports[..|reports| - 1], default_)
  }

  function ReportsOf<T>(msgs: seq<Message>, field: Message -> Option<T>): (reports: seq<Option<T>>)
    ensures |reports| == |msgs| && forall i :: 0 <= i < |msgs| ==> reports[i] == field(msgs[i])
  {
    seq(|msgs|, i requires 0 <= i < |msgs| => field(msgs[i]))
  }

  lemma OneMoreReport<T>(msgs: seq<Message>, field: Message -> Option<T>, default_: T)
    requires msgs != []
    ensures LastOf(ReportsOf(msgs, field), default_)
            == if field(msgs[|msgs| - 1]).Some? then field(msgs[|msgs| - 1]).value
               else LastOf(ReportsOf(msgs[..|msgs| - 1], field), default_)
  {
    assert ReportsOf(msgs, field)[..|msgs| - 1] == ReportsOf(msgs[..|msgs| - 1], field);
  }

  /** After any messages, the avatar's position and both orientations are the last ones
      reported, and the primary flag is that of the last join. */
  lemma {:induction false} LastReportWins(m: Libm, msgs: seq<Message>)
    requires m.Laws()
    ensures var c := AppliedAll(m, NEW_CONTROL, msgs);
            && c.state.avatarPos == LastOf(ReportsOf(msgs, (x: Message) => x.avatarPos), IDENTITY.avatarPos)
            && c.state.avatarRot == LastOf(ReportsOf(msgs, (x: Message) => x.avatarRot), IDENTITY.avatarRot)
            && c.state.listenerRot == LastOf(ReportsOf(msgs, (x: Message) => x.listenerRot), IDENTITY.listenerRot)
            && c.primary == LastOf(ReportsOf(msgs, (x: Message) => x.join), false)
            && (c.joined <==> exists i :: 0 <= i < |msgs| && msgs[i].join.Some?)
  {
    hide Libm.Laws, Tether, LastOf, ReportsOf, GainsAfter, MutesAfter;
    if msgs == [] {
      NothingReported();
    } else {
      LastReportWins(m, msgs[..|msgs| - 1]);
      OneMoreReport(msgs, (x: Message) => x.avatarPos, IDENTITY.avatarPos);
      OneMoreReport(msgs, (x: Message) => x.avatarRot, IDENTITY.avatarRot);
      OneMoreReport(msgs, (x: Message) => x.listenerRot, IDENTITY.listenerRot);
      OneMoreReport(msgs, (x: Message) => x.join, false);
      JoinedSoFar(msgs);
    }
  }

  lemma JoinedSoFar(msgs: seq<Message>)
    requires msgs != []
    ensures var before, last := msgs[..|msgs| - 1], msgs[|msgs| - 1];
            (exists i :: 0 <= i < |msgs| && msgs[i].join.Some?) <==>
              last.join.Some? || exists i :: 0 <= i < |before| && before[i].join.Some?
  {
    var before := msgs[..|msgs| - 1];
    if i :| 0 <= i < |msgs| && msgs[i].join.Some? {
      assert i < |before| ==> before[i].join.Some?;
    }
    if i :| 0 <= i < |before| && before[i].join.Some? {
      assert msgs[i].join.Some?;
    }
  }

  lemma NothingReported()
    ensures LastOf(ReportsOf([], (x: Message) => x.avatarPos), IDENTITY.avatarPos) == IDENTITY.avatarPos
    ensures LastOf(ReportsOf([], (x: Message) => x.avatarRot), IDENTITY.avatarRot) == IDENTITY.avatarRot
    ensures LastOf(ReportsOf([], (x: Message) => x.listenerRot), IDENTITY.listenerRot) == IDENTITY.listenerRot
    ensures LastOf(ReportsOf([], (x: Message) => x.join), false) == false
  {
  }

  /** The last entry for a key, if there is one. */
  function LastEntry<V>(entries: seq<(string, V)>, key: string): Option<V> {
    if entries == [] then None
    else if entries[|entries| - 1].0 == key then Some(entries[|entries| - 1].1)
    else LastEntry(entries[..|entries| - 1], key)
  }

  lemma {:induction false} LastGainWins(g: map<string, real>, entries: seq<(string, int)>, key: string)
    requires key in GainsAfter(g, entries)
    ensures GainsAfter(g, entries)[key] ==
              match LastEntry(entries, key)
              case Some(raw) => GainOf(raw)
              case None => if key in g then g[key] else 0.0
    ensures LastEntry(entries, key).None? ==> key in g
  {
    hide GainOf;
    if entries != [] {
      var before, last := entries[..|entries| - 1], entries[|entries| - 1];
      if last.0 != key {
        LastGainWins(g, before, key);
      }
    }
  }

  lemma {:induction false} LastMuteWins(mu: map<string, bool>, entries: seq<(string, bool)>, key: string)
    requires key in MutesAfter(mu, entries)
    ensures MutesAfter(mu, entries)[key] ==
              match LastEntry(entries, key)
              case Some(muted) => muted
              case None => key in mu && mu[key]
    ensures LastEntry(entries, key).None? ==> key in mu
  {
    if entries != [] {
      var before, last := entries[..|entries| - 1], entries[|entries| - 1];
      if last.0 != key {
        LastMuteWins(mu, before, key);
      }
    }
  }

  /** All entries of one kind that some messages carry, in order. */
  function GainsIn(msgs: seq<Message>): seq<(string, int)> {
    if msgs == [] then [] else GainsIn(msgs[..|msgs| - 1]) + msgs[|msgs| - 1].userGain
  }

  function MutesIn(msgs: seq<Message>): seq<(string, bool)> {
    if msgs == [] then [] else MutesIn(msgs[..|msgs| - 1]) + msgs[|msgs| - 1].userMute
  }

  lemma {:induction false} GainsOfMore(g: map<string, real>, a: seq<(string, int)>, b: seq<(string, int)>)
    ensures GainsAfter(g, a + b) == GainsAfter(GainsAfter(g, a), b)
  {
    if b == [] {
      assert a + b == a;
    } else {
      assert (a + b)[..|a + b| - 1] == a + b[..|b| - 1];
      GainsOfMore(g, a, b[..|b| - 1]);
    }
  }

  lemma {:induction false} MutesOfMore(mu: map<string, bool>, a: seq<(string, bool)>, b: seq<(string, bool)>)
    ensures MutesAfter(mu, a + b) == MutesAfter(MutesAfter(mu, a), b)
  {
    if b == [] {
      assert a + b == a;
    } else {
      assert (a + b)[..|a + b| - 1] == a + b[..|b| - 1];
      MutesOfMore(mu, a, b[..|b| - 1]);
    }
  }

  lemma {:induction false} PreferencesOfAll(m: Libm, msgs: seq<Message>)
    requires m.Laws()
    ensures AppliedAll(m, NEW_CONTROL, msgs).gains == GainsAfter(map[], GainsIn(msgs))
    ensures AppliedAll(m, NEW_CONTROL, msgs).mutes == MutesAfter(map[], MutesIn(msgs))
  {
    hide Libm.Laws, StateAfter;
    if msgs != [] {
      var before, last := msgs[..|msgs| - 1], msgs[|msgs| - 1];
      PreferencesOfAll(m, before);
      hide GainsAfter, MutesAfter;
      GainsOfMore(map[], GainsIn(before), last.userGain);
      MutesOfMore(map[], MutesIn(before), last.userMute);
    }
  }

  /** After any messages, every agent that the tables hold has the volume and the mute flag
      that the last entry for it asked for, in whichever message that was. */
  lemma LastPreferenceWins(m: Libm, msgs: seq<Message>, agent: string)
    requires m.Laws()
    ensures var c := AppliedAll(m, NEW_CONTROL, msgs);
            var raw, muted := LastEntry(GainsIn(msgs), agent), LastEntry(MutesIn(msgs), agent);
            && (agent in c.gains ==> raw.Some? && c.gains[agent] == GainOf(raw.value))
            && (agent in c.mutes ==> muted.Some? && c.mutes[agent] == muted.value)
  {
    hide Libm.Laws, AppliedAll, LastEntry, GainsIn, MutesIn, GainOf;
    PreferencesOfAll(m, msgs);
    var c := AppliedAll(m, NEW_CONTROL, msgs);
    if agent in c.gains {
      LastGainWins(map[], GainsIn(msgs), agent);
    }
    if agent in c.mutes {
      LastMuteWins(map[], MutesIn(msgs), agent);
    }
  }

  // ---------------------------------------------------------------------------
  // Where the ear goes
  // ---------------------------------------------------------------------------

  predicate Moves(msg: Message) {
    msg.avatarPos.Some? || msg.avatarRot.Some? || msg.listenerPos.Some? || msg.listenerRot.Some?
  }

  /** The ear is the point of the 50 m ball around the avatar that is nearest to `claimed`. */
  ghost predicate IsTethered(ear: Vec3, claimed: Vec3, avatar: Vec3) {
    && Spatial.InBall(ear, avatar)
    && (Spatial.InBall(claimed, avatar) ==> ear == claimed)
    && forall p :: Spatial.InBall(p, avatar) ==> Dist2(p, claimed) >= Dist2(ear, claimed) + Dist2(p, ear)
  }

  lemma TetherIsTethered(m: Libm, claimed: Vec3, avatar: Vec3)
    requires m.Laws()
    ensures IsTethered(Tether(m, claimed, avatar), claimed, avatar)
  {
    hide Tether, Libm.Laws, Dist2, Spatial.InBall;
    Spatial.TetherInBall(m, claimed, avatar);
    if Spatial.InBall(claimed, avatar) {
      Spatial.TetherInside(m, claimed, avatar);
    }
    forall p | Spatial.InBall(p, avatar)
      ensures Dist2(p, claimed) >= Dist2(Tether(m, claimed, avatar), claimed) + Dist2(p, Tether(m, claimed, avatar))
    {
      Spatial.TetherIsNearest(m, claimed, avatar, p);
    }
  }

  lemma EarIsTether(m: Libm, c: Control, msg: Message)
    requires m.Laws()
    ensures var s, s' := c.state, Applied(m, c, msg).state;
            var claimed := if msg.listenerPos.Some? then msg.listenerPos.value else s.listenerPos;
            && s'.listenerPos == (if s'.known && Moves(msg) then Tether(m, claimed, s'.avatarPos) else claimed)
            && (!Moves(msg) ==> s' == s)
            && (s'.known <==> s.known || msg.avatarPos.Some?)
            && s'.avatarPos == (if msg.avatarPos.Some? then msg.avatarPos.value else s.avatarPos)
  {
    hide Libm.Laws, Tether, GainsAfter, MutesAfter;
  }

  /** One message, whatever it carries: the ear it reports, or else the ear as it was, is taken
      as it is while the position is unknown, and tethered to the avatar once it is known. A
      message without any of the four parts moves nothing. */
  lemma EarAfter(m: Libm, c: Control, msg: Message, s': SpatialState, claimed: Vec3)
    requires m.Laws() && s' == Applied(m, c, msg).state
    requires claimed == if msg.listenerPos.Some? then msg.listenerPos.value else c.state.listenerPos
    ensures !s'.known ==> s'.listenerPos == claimed
    ensures s'.known && Moves(msg) ==> IsTethered(s'.listenerPos, claimed, s'.avatarPos)
    ensures !Moves(msg) ==> s' == c.state
    ensures s'.known <==> c.state.known || msg.avatarPos.Some?
    ensures s'.avatarPos == if msg.avatarPos.Some? then msg.avatarPos.value else c.state.avatarPos
  {
    hide Libm.Laws, Tether, IsTethered, Applied;
    EarIsTether(m, c, msg);
    TetherIsTethered(m, claimed, s'.avatarPos);
  }

  /** A tethered ear stays where it is while neither ear nor avatar is reported anew. */
  lemma EarStays(m: Libm, c: Control, msg: Message)
    requires m.Laws() && msg.listenerPos.None? && msg.avatarPos.None?
    requires c.state.known ==> Spatial.InBall(c.state.listenerPos, c.state.avatarPos)
    ensures var s, s' := c.state, Applied(m, c, msg).state;
            s'.listenerPos == s.listenerPos && s'.avatarPos == s.avatarPos && s'.known == s.known
  {
    hide Libm.Laws, Applied, Tether, Spatial.InBall;
    EarIsTether(m, c, msg);
    if c.state.known {
      Spatial.TetherInside(m, c.state.listenerPos, c.state.avatarPos);
    }
  }

  /** Over any messages: once the last report of an ear, and no later one of the avatar, has
      come in, the ear is that report, tethered to the avatar if the position is known. */
  lemma {:induction false} LastEarWins(m: Libm, msgs: seq<Message>, i: nat)
    requires m.Laws() && i < |msgs| && msgs[i].listenerPos.Some?
    requires forall j :: i < j < |msgs| ==> msgs[j].listenerPos.None? && msgs[j].avatarPos.None?
    ensures var s := AppliedAll(m, NEW_CONTROL, msgs).state;
            if s.known then IsTethered(s.listenerPos, msgs[i].listenerPos.value, s.avatarPos)
            else s.listenerPos == msgs[i].listenerPos.value
  {
    hide Libm.Laws, Applied, IsTethered, Spatial.InBall;
    var n := |msgs| - 1;
    var c := AppliedAll(m, NEW_CONTROL, msgs[..n]);
    if i == n {
      EarAfter(m, c, msgs[n], AppliedAll(m, NEW_CONTROL, msgs).state, msgs[n].listenerPos.value);
    } else {
      LastEarWins(m, msgs[..n], i);
      EverySequenceIsSound(m, msgs[..n]);
      EarStays(m, c, msgs[n]);
    }
  }

  // ---------------------------------------------------------------------------
  // What a listener makes of a speaker
  // ---------------------------------------------------------------------------

  /** Volumes are in steps of 1/220, and at most 4. */
  lemma GainOfRaw(raw: int)
    requires raw >= 0
    ensures GainOf(raw) == if raw <= 880 then raw as real / 220.0 else 4.0
    ensures 0.0 <= GainOf(raw) <= 4.0
  {
  }

  /** A mute silences the speaker whatever its volume, and only then does the volume count:
      the speaker's own, or 1 for a speaker without one. */
  lemma MuteOverridesVolume(gains: map<string, real>, mutes: map<string, bool>, speaker: string)
    ensures speaker in mutes && mutes[speaker] ==> PeerGainOf(gains, mutes, speaker) == 0.0
    ensures !(speaker in mutes && mutes[speaker]) ==>
              PeerGainOf(gains, mutes, speaker) == if speaker in gains then gains[speaker] else 1.0
  {
  }

  /** After any messages the last mute flag of a held speaker decides, and where it does not
      silence the speaker the last volume does. */
  lemma LastMuteDecides(m: Libm, msgs: seq<Message>, speaker: string)
    requires m.Laws()
    ensures var c := AppliedAll(m, NEW_CONTROL, msgs);
            var muted, raw := LastEntry(MutesIn(msgs), speaker), LastEntry(GainsIn(msgs), speaker);
            var gain := PeerGainOf(c.gains, c.mutes, speaker);
            && (speaker in c.mutes ==> muted.Some?) && (speaker in c.gains ==> raw.Some?)
            && (speaker in c.mutes && muted.value ==> gain == 0.0)
            && (!(speaker in c.mutes && muted.value) ==>
                  gain == (if speaker in c.gains then GainOf(raw.value) else 1.0))
  {
    hide Libm.Laws, AppliedAll, LastEntry, GainsIn, MutesIn, GainOf, PeerGainOf;
    LastPreferenceWins(m, msgs, speaker);
    var c := AppliedAll(m, NEW_CONTROL, msgs);
    MuteOverridesVolume(c.gains, c.mutes, speaker);
  }

  lemma OneGain(g: map<string, real>, agent: string, raw: int)
    ensures GainsAfter(g, [(agent, raw)]) == PutCapped(g, agent, GainOf(raw))
  {
    assert [(agent, raw)][..0] == [];
  }

  lemma OneMute(mu: map<string, bool>, agent: string, muted: bool)
    ensures MutesAfter(mu, [(agent, muted)]) == PutCapped(mu, agent, muted)
  {
    assert [(agent, muted)][..0] == [];
  }

  lemma NoGain(g: map<string, real>)
    ensures GainsAfter(g, []) == g
  {
  }

  function MuteMessage(speaker: string, muted: bool): Message {
    Message(None, None, None, None, None, [], [(speaker, muted)])
  }

  /** Muting a speaker silences it, and taking the mute back restores the volume that was set
      before, if the table has room for the speaker at all. */
  lemma UnmuteRestores(m: Libm, c: Control, speaker: string)
    requires m.Laws() && (|c.mutes| < MAX_PEER_ENTRIES || speaker in c.mutes)
    ensures var quiet := Applied(m, c, MuteMessage(speaker, true));
            var again := Applied(m, quiet, MuteMessage(speaker, false));
            && PeerGainOf(quiet.gains, quiet.mutes, speaker) == 0.0
            && PeerGainOf(again.gains, again.mutes, speaker) == (if speaker in c.gains then c.gains[speaker] else 1.0)
            && forall other :: other != speaker ==>
                 PeerGainOf(again.gains, again.mutes, other) == PeerGainOf(c.gains, c.mutes, other)
  {
    hide Libm.Laws, StateAfter, GainsAfter, MutesAfter;
    OneMute(c.mutes, speaker, true);
    OneMute(c.mutes[speaker := true], speaker, false);
    NoGain(c.gains);
  }

  ghost function KeysIn<V>(entries: seq<(string, V)>): set<string> {
    set e | e in entries :: e.0
  }

  lemma KeysInMore<V>(entries: seq<(string, V)>)
    requires entries != []
    ensures KeysIn(entries) == KeysIn(entries[..|entries| - 1]) + {entries[|entries| - 1].0}
  {
    assert entries == entries[..|entries| - 1] + [entries[|entries| - 1]];
  }

  lemma {:induction false} FewGainsAreHeld(entries: seq<(string, int)>)
    requires |KeysIn(entries)| <= 256
    ensures GainsAfter(map[], entries).Keys == KeysIn(entries)
  {
    if entries != [] {
      var before, last := entries[..|entries| - 1], entries[|entries| - 1];
      KeysInMore(entries);
      FewerAreFewer(KeysIn(before), last.0);
      FewGainsAreHeld(before);
    }
  }

  lemma {:induction false} FewMutesAreHeld(entries: seq<(string, bool)>)
    requires |KeysIn(entries)| <= 256
    ensures MutesAfter(map[], entries).Keys == KeysIn(entries)
  {
    if entries != [] {
      var before, last := entries[..|entries| - 1], entries[|entries| - 1];
      KeysInMore(entries);
      FewerAreFewer(KeysIn(before), last.0);
      FewMutesAreHeld(before);
    }
  }

  lemma FewerAreFewer(keys: set<string>, key: string)
    ensures |keys| <= |keys + {key}|
    ensures key !in keys ==> |keys + {key}| == |keys| + 1
  {
    if key in keys {
      assert keys + {key} == keys;
    }
  }

  /** As long as the messages name at most 256 agents of a kind, the tables hold them all. */
  lemma FewAgentsAreHeld(m: Libm, msgs: seq<Message>)
    requires m.Laws()
    ensures var c := AppliedAll(m, NEW_CONTROL, msgs);
            && (|KeysIn(GainsIn(msgs))| <= 256 ==> c.gains.Keys == KeysIn(GainsIn(msgs)))
            && (|KeysIn(MutesIn(msgs))| <= 256 ==> c.mutes.Keys == KeysIn(MutesIn(msgs)))
  {
    hide Libm.Laws, AppliedAll, GainsIn, MutesIn, KeysIn;
    PreferencesOfAll(m, msgs);
    if |KeysIn(GainsIn(msgs))| <= 256 {
      FewGainsAreHeld(GainsIn(msgs));
    }
    if |KeysIn(MutesIn(msgs))| <= 256 {
      FewMutesAreHeld(MutesIn(msgs));
    }
  }
}
