/** One tick of one room (`mix_room` and `build_roster`, src/room.rs). */
module MixRoom {
  import opened Wrappers
  import opened RealMath
  import opened Mixer
  import opened Proto
  import opened Room

  // ---------------------------------------------------------------------------
  // Specification
  // ---------------------------------------------------------------------------

  /** What a tick reads of one session; `frame` is the head of its queue. */
  datatype Member = Member(
    id: string, agentId: string, spatial: bool, state: SpatialState,
    gains: map<string, real>, mutes: map<string, bool>, frame: Option<Frame>)

  function SnapshotOf(s: Session): Member
    reads s
  {
    Member(s.id, s.agentId, s.spatial, s.state, s.gains, s.mutes, TakenFrom(s.inbound).0)
  }

  function Snapshots(members: seq<Session>): (snapshots: seq<Member>)
    reads members
    ensures |snapshots| == |members|
    ensures forall i :: 0 <= i < |members| ==>
              && snapshots[i].id == members[i].id && snapshots[i].agentId == members[i].agentId
              && snapshots[i].spatial == members[i].spatial && snapshots[i].state == members[i].state
              && snapshots[i].gains == members[i].gains && snapshots[i].mutes == members[i].mutes
              && snapshots[i].frame == if members[i].inbound == [] then None else Some(members[i].inbound[0])
  {
    seq(|members|, i requires 0 <= i < |members| reads members => SnapshotOf(members[i]))
  }

  /** How loud a listener hears a speaker before distance counts. */
  function GainFor(listener: Member, speaker: Member): real {
    PeerGainOf(listener.gains, listener.mutes, speaker.agentId)
  }

  /** From the ear of the listener to the avatar of the speaker. */
  function DistanceTo(m: Libm, listener: Member, speaker: Member): real
    requires m.Laws()
  {
    m.sqrt(Dist2(speaker.state.avatarPos, listener.state.listenerPos))
  }

  /** What the speaker contributes to the listener's mix, if anything. */
  function ContributionOf(m: Libm, listener: Member, speaker: Member): Option<Contribution>
    requires m.Laws()
  {
    if speaker.id == listener.id || speaker.frame.None? || GainFor(listener, speaker) <= 0.0 then None
    else if !listener.spatial then
      Some(Contribution(speaker.frame.value, GainFor(listener, speaker), (m.rootHalf, m.rootHalf)))
    else if !speaker.state.known || !listener.state.known then None
    else
      var dg := DistanceGain(DistanceTo(m, listener, speaker));
      if dg <= 0.0 then None
      else
        Some(Contribution(speaker.frame.value, GainFor(listener, speaker) * dg,
                          PanWeights(m, speaker.state.avatarPos, listener.state.listenerPos,
                                     listener.state.listenerRot)))
  }

  function ContributionsOf(m: Libm, listener: Member, speakers: seq<Member>): seq<Contribution>
    requires m.Laws()
  {
    if speakers == [] then []
    else
      var before := ContributionsOf(m, listener, speakers[..|speakers| - 1]);
      match ContributionOf(m, listener, speakers[|speakers| - 1])
      case None => before
      case Some(c) => before + [c]
  }

  function MixFor(m: Libm, listener: Member, speakers: seq<Member>): Frame
    requires m.Laws()
  {
    StereoOf(m, ContributionsOf(m, listener, speakers))
  }

  /** What a roster reads of one session. */
  datatype Voice = Voice(agentId: string, level: int, primary: bool)

  function VoiceOf(s: Session): Voice
    reads s
  {
    Voice(s.agentId, s.level, s.primary)
  }

  function Voices(members: seq<Session>): (voices: seq<Voice>)
    reads members
    ensures |voices| == |members|
    ensures forall i :: 0 <= i < |members| ==>
              && voices[i].agentId == members[i].agentId && voices[i].level == members[i].level
              && voices[i].primary == members[i].primary
  {
    seq(|members|, i requires 0 <= i < |members| reads members => VoiceOf(members[i]))
  }

  function Agents(voices: seq<Voice>): set<string> {
    set v | v in voices :: v.agentId
  }

  function EntryOf(joined: bool, v: Voice): RosterEntry {
    RosterEntry(joined, v.primary, v.level, Speaking(v.level), false)
  }

  /** The roster entries for a listener who has already been told about `announced`. */
  function EntriesFor(announced: set<string>, voices: seq<Voice>): seq<(string, RosterEntry)> {
    if voices == [] then []
    else
      var before, v := voices[..|voices| - 1], voices[|voices| - 1];
      var joined := v.agentId !in announced + Agents(before);
      if !joined && v.level == 0 then EntriesFor(announced, before)
      else EntriesFor(announced, before) + [(v.agentId, EntryOf(joined, v))]
  }

  function RosterFor(announced: set<string>, voices: seq<Voice>): Option<Roster> {
    var entries := EntriesFor(announced, voices);
    if entries == [] then None else Some(JsonOf(entries))
  }

  // ---------------------------------------------------------------------------
  // The loops
  // ---------------------------------------------------------------------------

  method BuildRoster(listener: Session, speakers: seq<Session>) returns (roster: Option<Roster>)
    modifies listener`announced
    ensures roster == RosterFor(old(listener.announced), Voices(speakers))
    ensures listener.announced == old(listener.announced) + Agents(Voices(speakers))
  {
    ghost var voices := Voices(speakers);
    assert voices[..0] == [];
    var entries: seq<(string, RosterEntry)> := [];
    for i := 0 to |speakers|
      invariant forall j :: 0 <= j < |speakers| ==> VoiceOf(speakers[j]) == voices[j]
      invariant entries == EntriesFor(old(listener.announced), voices[..i])
      invariant listener.announced == old(listener.announced) + Agents(voices[..i])
    {
      var speaker := speakers[i];
      var level := speaker.level;
      assert voices[..i + 1][..i] == voices[..i];
      assert voices[i] == VoiceOf(speaker);
      AgentsGrow(voices, i);
      var joined := listener.MarkAnnounced(speaker.agentId);
      if joined || level != 0 {
        var entry := RosterEntry(joined, speaker.primary, level, Speaking(level), false);
        entries := entries + [(speaker.agentId, entry)];
      }
    }
    assert voices[..|speakers|] == voices == Voices(speakers);
    if entries == [] {
      return None;
    }
    var root := Proto.RosterJson(entries);
    return Some(root);
  }

  lemma AgentsGrow(voices: seq<Voice>, i: nat)
    requires i < |voices|
    ensures Agents(voices[..i + 1]) == Agents(voices[..i]) + {voices[i].agentId}
  {
    assert voices[..i + 1] == voices[..i] + [voices[i]];
  }

  datatype ListenerOutput = ListenerOutput(session: Session, stereo: Frame, roster: Option<Roster>)

  /** What one speaker adds to one listener's mix, or nothing. */
  method Contribute(m: Libm, listener: Session, speaker: Session, frame: Option<Frame>,
                    ghost l: Member, ghost s: Member)
    returns (c: Option<Contribution>)
    requires m.Laws()
    requires TickedFrom(listener, l) && TickedFrom(speaker, s) && frame == s.frame
    ensures c == ContributionOf(m, l, s)
  {
    hide Libm.Laws, PanWeights, DistanceGain, Dist2;
    if speaker.id == listener.id {
      return None;
    }
    if frame.None? {
      return None;
    }
    var gain := listener.PeerGain(speaker.agentId);
    if gain <= 0.0 {
      return None;
    }
    assert gain == GainFor(l, s);
    var pan;
    if listener.spatial {
      var sstate, lstate := speaker.state, listener.state;
      if !sstate.known || !lstate.known {
        return None;
      }
      var d := m.sqrt(Dist2(sstate.avatarPos, lstate.listenerPos));
      var dg := DistanceGain(d);
      if dg <= 0.0 {
        return None;
      }
      assert d == DistanceTo(m, l, s);
      SameProduct(gain, dg, GainFor(l, s), DistanceGain(DistanceTo(m, l, s)));
      gain := gain * dg;
      pan := PanWeights(m, sstate.avatarPos, lstate.listenerPos, lstate.listenerRot);
    } else {
      pan := (m.rootHalf, m.rootHalf);
    }
    return Some(Contribution(frame.value, gain, pan));
  }

  lemma SameProduct(a: real, b: real, c: real, d: real)
    requires a == c && b == d
    ensures a * b == c * d
  {
  }

  /** The inner loop for one listener: everyone else's contribution, mixed. */
  method MixOne(m: Libm, listener: Session, members: seq<Session>, frames: seq<Option<Frame>>,
                ghost was: seq<Member>, ghost k: nat)
    returns (stereo: Frame)
    requires m.Laws()
    requires |frames| == |members| == |was| && k < |members| && members[k] == listener
    requires forall i :: 0 <= i < |members| ==> TickedFrom(members[i], was[i]) && frames[i] == was[i].frame
    ensures stereo == MixFor(m, was[k], was)
  {
    hide Libm.Laws, ContributionOf, StereoOf;
    var contributions: seq<Contribution> := [];
    assert was[..0] == [];
    for i := 0 to |members|
      invariant contributions == ContributionsOf(m, was[k], was[..i])
    {
      assert was[..i + 1][..i] == was[..i];
      assert TickedFrom(members[i], was[i]) && TickedFrom(listener, was[k]);
      var c := Contribute(m, listener, members[i], frames[i], was[k], was[i]);
      if c.Some? {
        contributions := contributions + [c.value];
      }
    }
    assert was[..|was|] == was;
    var buffer := new real[2 * FRAME_SAMPLES];
    MixStereo(m, contributions, buffer);
    stereo := buffer[..];
  }

  /** The session still is as the snapshot says, except for the frame taken from its queue. */
  predicate TickedFrom(s: Session, was: Member)
    reads s
  {
    && s.id == was.id && s.agentId == was.agentId && s.spatial == was.spatial
    && s.state == was.state && s.gains == was.gains && s.mutes == was.mutes
  }

  /** Pull exactly one frame per speaker, and measure it. */
  method TakeFrames(m: Libm, members: seq<Session>) returns (frames: seq<Option<Frame>>)
    requires m.Laws() && Distinct(members)
    modifies members`inbound, members`level, members`wasSpeaking
    ensures |frames| == |members|
    ensures forall k :: 0 <= k < |members| ==>
              && frames[k] == old(Snapshots(members))[k].frame
              && members[k].inbound == TakenFrom(old(members[k].inbound)).1
              && members[k].level == LevelOf(m, frames[k])
              && members[k].wasSpeaking == Speaking(members[k].level)
  {
    hide Libm.Laws;
    frames := [];
    for i := 0 to |members|
      invariant |frames| == i
      invariant forall k :: 0 <= k < i ==>
                  && frames[k] == TakenFrom(old(members[k].inbound)).0
                  && members[k].inbound == TakenFrom(old(members[k].inbound)).1
                  && members[k].level == LevelOf(m, frames[k])
                  && members[k].wasSpeaking == Speaking(members[k].level)
      invariant forall k :: i <= k < |members| ==> members[k].inbound == old(members[k].inbound)
    {
      var f := members[i].TakeFrame();
      var level := members[i].UpdateLevel(m, f);
      frames := frames + [f];
    }
  }

  /** Mix and roster for the `k`-th member. */
  method Serve(m: Libm, members: seq<Session>, frames: seq<Option<Frame>>, ghost was: seq<Member>, k: int)
    returns (output: ListenerOutput)
    requires m.Laws()
    requires |frames| == |members| == |was| && 0 <= k < |members|
    requires forall i :: 0 <= i < |members| ==> TickedFrom(members[i], was[i]) && frames[i] == was[i].frame
    modifies {members[k]}`announced
    ensures Voices(members) == old(Voices(members))
    ensures output.session == members[k]
    ensures output.stereo == MixFor(m, was[k], was)
    ensures output.roster == RosterFor(old(members[k].announced), Voices(members))
    ensures members[k].announced == old(members[k].announced) + Agents(Voices(members))
  {
    hide Libm.Laws, MixFor, RosterFor, Agents;
    var stereo := MixOne(m, members[k], members, frames, was, k);
    var roster := BuildRoster(members[k], members);
    output := ListenerOutput(members[k], stereo, roster);
  }

  /** One tick. The caller's list holds every session once. */
  method Tick(m: Libm, members: seq<Session>) returns (out: seq<ListenerOutput>)
    requires m.Laws() && Distinct(members)
    modifies members`inbound, members`level, members`wasSpeaking, members`announced
    ensures |out| == |members|
    ensures forall k :: 0 <= k < |members| ==>
              var s := members[k];
              var was := old(Snapshots(members));
              && out[k].session == s
              && out[k].stereo == MixFor(m, was[k], was)
              && out[k].roster == RosterFor(old(s.announced), Voices(members))
              && s.announced == old(s.announced) + Agents(Voices(members))
              && s.inbound == TakenFrom(old(s.inbound)).1
              && s.level == LevelOf(m, was[k].frame) && s.wasSpeaking == Speaking(s.level)
  {
    hide Libm.Laws, MixFor, LevelOf, RosterFor, Agents;
    ghost var was := Snapshots(members);
    var frames := TakeFrames(m, members);
    assert forall i :: 0 <= i < |members| ==> TickedFrom(members[i], was[i]) && frames[i] == was[i].frame;
    hide TakenFrom;
    out := ServeAll(m, members, frames, was);
  }

  method ServeAll(m: Libm, members: seq<Session>, frames: seq<Option<Frame>>, ghost was: seq<Member>)
    returns (out: seq<ListenerOutput>)
    requires m.Laws() && Distinct(members)
    requires |frames| == |members| == |was|
    requires forall i :: 0 <= i < |members| ==> TickedFrom(members[i], was[i]) && frames[i] == was[i].frame
    modifies members`announced
    ensures |out| == |members|
    ensures forall k :: 0 <= k < |members| ==>
              && out[k].session == members[k]
              && out[k].stereo == MixFor(m, was[k], was)
              && out[k].roster == RosterFor(old(members[k].announced), Voices(members))
              && members[k].announced == old(members[k].announced) + Agents(Voices(members))
  {
    hide Libm.Laws, MixFor, RosterFor, Agents;
    ghost var voices := Voices(members);
    out := [];
    for i := 0 to |members|
      invariant |out| == i && Voices(members) == voices
      invariant forall k :: i <= k < |members| ==> members[k].announced == old(members[k].announced)
      invariant forall k :: 0 <= k < i ==>
                  && out[k].session == members[k]
                  && out[k].stereo == MixFor(m, was[k], was)
                  && out[k].roster == RosterFor(old(members[k].announced), voices)
                  && members[k].announced == old(members[k].announced) + Agents(voices)
    {
      var output := Serve(m, members, frames, was, i);
      out := out + [output];
    }
  }

  /** A room with nobody to mix for: throw its audio away, and measure the newest frame. */
  method DrainLone(m: Libm, s: Session) returns (last: Option<Frame>)
    requires m.Laws()
    modifies s`inbound, s`level, s`wasSpeaking
    ensures s.inbound == []
    ensures last == if old(s.inbound) == [] then None else Some(old(s.inbound)[|old(s.inbound)| - 1])
    ensures s.level == LevelOf(m, last) && s.wasSpeaking == Speaking(s.level)
  {
    last := None;
    while true
      invariant |s.inbound| <= |old(s.inbound)|
      invariant s.inbound == old(s.inbound)[|old(s.inbound)| - |s.inbound|..]
      invariant last == if |s.inbound| == |old(s.inbound)| then None
                        else Some(old(s.inbound)[|old(s.inbound)| - |s.inbound| - 1])
      decreases |s.inbound|
    {
      var f := s.TakeFrame();
      if f.None? {
        break;
      }
      last := f;
    }
    var level := s.UpdateLevel(m, last);
  }
}
