/** What the per-listener mix of a room guarantees. */
module MixLaws {
  import opened Wrappers
  import opened RealMath
  import opened Mixer
  import opened Room
  import opened MixRoom
  import Proto
  import Spatial

  // ---------------------------------------------------------------------------
  // The closed form: a plain sum over everybody
  // ---------------------------------------------------------------------------

  /** How strongly the listener hears the speaker in the left (0) or right (1) channel. */
  function Placement(m: Libm, listener: Member, speaker: Member, channel: int): real
    requires m.Laws()
  {
    if !listener.spatial then m.rootHalf
    else if !speaker.state.known || !listener.state.known then 0.0
    else
      var pan := PanWeights(m, speaker.state.avatarPos, listener.state.listenerPos, listener.state.listenerRot);
      DistanceGain(DistanceTo(m, listener, speaker)) * if channel == 0 then pan.0 else pan.1
  }

  /** What the listener hears of one speaker in sample `i`. */
  function Heard(m: Libm, listener: Member, speaker: Member, i: nat): real
    requires m.Laws()
  {
    if speaker.id == listener.id || speaker.frame.None? || i / 2 >= |speaker.frame.value| then 0.0
    else Scaled(speaker.frame.value[i / 2], GainFor(listener, speaker), Placement(m, listener, speaker, i % 2))
  }

  function Scaled(sample: real, gain: real, place: real): real {
    sample * (gain * place)
  }

  function HeardSum(m: Libm, listener: Member, speakers: seq<Member>, i: nat): real
    requires m.Laws()
  {
    if speakers == [] then 0.0
    else HeardSum(m, listener, speakers[..|speakers| - 1], i) + Heard(m, listener, speakers[|speakers| - 1], i)
  }

  predicate GainsAreSound(listener: Member, speakers: seq<Member>) {
    forall s :: s in speakers && s.id != listener.id ==> GainFor(listener, s) >= 0.0
  }

  /** A sound session has no negative gain for anybody. */
  lemma SoundGains(c: Control, listener: Member, speakers: seq<Member>)
    requires Sound(c) && c.gains == listener.gains && c.mutes == listener.mutes
    ensures GainsAreSound(listener, speakers)
  {
  }

  lemma DistanceGainIsNonNegative(d: real)
    ensures DistanceGain(d) >= 0.0
  {
  }

  lemma SkippingIsSilence(m: Libm, listener: Member, speaker: Member, i: nat)
    requires m.Laws() && (speaker.id == listener.id || GainFor(listener, speaker) >= 0.0) && i < 2 * FRAME_SAMPLES
    ensures Heard(m, listener, speaker, i) ==
            match ContributionOf(m, listener, speaker)
            case None => 0.0
            case Some(c) => Term(c, i)
  {
    hide Libm.Laws, PanWeights, DistanceGain, GainFor;
    var g := GainFor(listener, speaker);
    if listener.spatial {
      var dg := DistanceGain(DistanceTo(m, listener, speaker));
      DistanceGainIsNonNegative(DistanceTo(m, listener, speaker));
      if g > 0.0 && dg > 0.0 {
        PositiveProduct(g, dg);
        var pan := PanWeights(m, speaker.state.avatarPos, listener.state.listenerPos, listener.state.listenerRot);
        assert (g * dg) * pan.0 == g * (dg * pan.0) && (g * dg) * pan.1 == g * (dg * pan.1);
      }
    }
  }

  /** The loops with their early exits compute, sample by sample, the soft clip of the sum
      over all other sessions of frame times peer gain times distance gain times pan. */
  lemma {:induction false} SumOfContributions(m: Libm, listener: Member, speakers: seq<Member>, i: nat)
    requires m.Laws() && i < 2 * FRAME_SAMPLES
    requires GainsAreSound(listener, speakers)
    ensures SampleSum(ContributionsOf(m, listener, speakers), i) == HeardSum(m, listener, speakers, i)
  {
    hide Libm.Laws, Heard, ContributionOf, GainFor, Term;
    if speakers != [] {
      var before, last := speakers[..|speakers| - 1], speakers[|speakers| - 1];
      SumOfContributions(m, listener, before, i);
      SkippingIsSilence(m, listener, last, i);
      match ContributionOf(m, listener, last)
      case None =>
      case Some(c) =>
        var cs := ContributionsOf(m, listener, before);
        assert (cs + [c])[..|cs|] == cs;
    }
  }

  lemma MixIsClippedSum(m: Libm, listener: Member, speakers: seq<Member>, i: nat)
    requires m.Laws() && i < 2 * FRAME_SAMPLES
    requires GainsAreSound(listener, speakers)
    ensures MixFor(m, listener, speakers)[i] == SoftClip(m, HeardSum(m, listener, speakers, i))
    ensures var sum := HeardSum(m, listener, speakers, i);
            MixFor(m, listener, speakers)[i] == if -1.0 <= sum <= 1.0 then sum else m.tanh(sum)
  {
    SumOfContributions(m, listener, speakers, i);
  }

  /** Nothing louder than full scale leaves the mixer, whatever goes in. */
  lemma MixIsBounded(m: Libm, listener: Member, speakers: seq<Member>, i: nat)
    requires m.Laws() && i < 2 * FRAME_SAMPLES
    ensures |MixFor(m, listener, speakers)| == 1920
    ensures -1.0 <= MixFor(m, listener, speakers)[i] <= 1.0
  {
    var x := SampleSum(ContributionsOf(m, listener, speakers), i);
    assert -1.0 < m.tanh(x) < 1.0;
  }

  // ---------------------------------------------------------------------------
  // Mutes
  // ---------------------------------------------------------------------------

  predicate IsMuted(listener: Member, speaker: Member) {
    speaker.agentId in listener.mutes && listener.mutes[speaker.agentId]
  }

  lemma MutedContributesNothing(m: Libm, listener: Member, speaker: Member)
    requires m.Laws() && IsMuted(listener, speaker)
    ensures ContributionOf(m, listener, speaker) == None
    ensures ContributionOf(m, listener, speaker.(frame := None)) == None
  {
    hide Libm.Laws;
  }

  /** Whatever volume the listener has stored for a speaker it has muted, its mix is the one it
      would get if the speaker had said nothing. */
  lemma {:induction false} MutedIsSilent(m: Libm, listener: Member, speakers: seq<Member>, k: nat)
    requires m.Laws() && k < |speakers| && IsMuted(listener, speakers[k])
    ensures var hushed := speakers[k := speakers[k].(frame := None)];
            && ContributionsOf(m, listener, hushed) == ContributionsOf(m, listener, speakers)
            && MixFor(m, listener, hushed) == MixFor(m, listener, speakers)
  {
    hide Libm.Laws, ContributionOf, IsMuted, StereoOf;
    var n := |speakers| - 1;
    var hushed := speakers[k := speakers[k].(frame := None)];
    MutedContributesNothing(m, listener, speakers[k]);
    if k == n {
      assert hushed[..n] == speakers[..n];
    } else {
      MutedIsSilent(m, listener, speakers[..n], k);
      assert hushed[..n] == speakers[..n][k := speakers[..n][k].(frame := None)];
    }
  }

  /** A speaker that is not muted is heard at its own volume, or at 1 where none is stored. */
  lemma VolumeOfUnmuted(listener: Member, speaker: Member)
    requires !IsMuted(listener, speaker)
    ensures GainFor(listener, speaker) ==
              if speaker.agentId in listener.gains then listener.gains[speaker.agentId] else 1.0
  {
  }

  // ---------------------------------------------------------------------------
  // The order of the members does not matter
  // ---------------------------------------------------------------------------

  lemma {:induction false} SumWithout(m: Libm, listener: Member, speakers: seq<Member>, k: nat, i: nat)
    requires m.Laws() && k < |speakers|
    ensures HeardSum(m, listener, speakers, i)
            == HeardSum(m, listener, speakers[..k] + speakers[k + 1..], i) + Heard(m, listener, speakers[k], i)
  {
    hide Libm.Laws, Heard;
    var n := |speakers| - 1;
    var rest := speakers[..k] + speakers[k + 1..];
    if k == n {
      assert rest == speakers[..n];
    } else {
      SumWithout(m, listener, speakers[..n], k, i);
      assert rest[..n - 1] == speakers[..n][..k] + speakers[..n][k + 1..];
      assert rest[n - 1] == speakers[n];
    }
  }

  lemma {:induction false} SumOfPermutation(m: Libm, listener: Member, s: seq<Member>, t: seq<Member>, i: nat)
    requires m.Laws() && multiset(s) == multiset(t)
    ensures HeardSum(m, listener, s, i) == HeardSum(m, listener, t, i)
    decreases |s|
  {
    hide Libm.Laws, Heard;
    if s == [] {
      assert |multiset(t)| == 0;
    } else {
      var n := |s| - 1;
      assert s[n] in multiset(t);
      var k :| 0 <= k < |t| && t[k] == s[n];
      DropFromBoth(s, t, k);
      SumOfPermutation(m, listener, s[..n], t[..k] + t[k + 1..], i);
      SumWithout(m, listener, t, k, i);
    }
  }

  lemma DropFromBoth(s: seq<Member>, t: seq<Member>, k: nat)
    requires multiset(s) == multiset(t) && k < |t| && s != [] && t[k] == s[|s| - 1]
    ensures multiset(s[..|s| - 1]) == multiset(t[..k] + t[k + 1..])
  {
    assert s == s[..|s| - 1] + [s[|s| - 1]];
    assert t == t[..k] + [t[k]] + t[k + 1..];
    assert multiset(t) == multiset(t[..k]) + multiset{t[k]} + multiset(t[k + 1..]);
    assert multiset(t[..k] + t[k + 1..]) == multiset(t) - multiset{t[k]};
    assert multiset(s) == multiset(s[..|s| - 1]) + multiset{t[k]};
    assert multiset(s[..|s| - 1]) == multiset(s) - multiset{t[k]};
  }

  /** Listing a room's members in another order changes nobody's audio. */
  lemma MixIgnoresOrder(m: Libm, listener: Member, s: seq<Member>, t: seq<Member>)
    requires m.Laws() && multiset(s) == multiset(t)
    requires GainsAreSound(listener, s)
    ensures MixFor(m, listener, s) == MixFor(m, listener, t)
  {
    hide Libm.Laws, GainFor, HeardSum;
    forall x | x in t && x.id != listener.id
      ensures GainFor(listener, x) >= 0.0
    {
      assert x in multiset(s);
    }
    forall i: nat | i < 2 * FRAME_SAMPLES
      ensures MixFor(m, listener, s)[i] == MixFor(m, listener, t)[i]
    {
      SumOfPermutation(m, listener, s, t, i);
      MixIsClippedSum(m, listener, s, i);
      MixIsClippedSum(m, listener, t, i);
    }
  }

  // ---------------------------------------------------------------------------
  // Listeners are independent
  // ---------------------------------------------------------------------------

  /** Two snapshots that differ at most in how their session listens: its volumes and mutes,
      its ear, its orientation and its kind. */
  predicate SoundsTheSame(a: Member, b: Member) {
    && a.id == b.id && a.agentId == b.agentId && a.frame == b.frame
    && a.state.known == b.state.known && a.state.avatarPos == b.state.avatarPos
  }

  /** Nobody's mix depends on how anybody else listens. */
  lemma {:induction false} OtherListenersDoNotMatter(m: Libm, listener: Member, s: seq<Member>, t: seq<Member>)
    requires m.Laws() && |s| == |t|
    requires forall j :: 0 <= j < |s| ==> SoundsTheSame(s[j], t[j])
    ensures ContributionsOf(m, listener, s) == ContributionsOf(m, listener, t)
    ensures MixFor(m, listener, s) == MixFor(m, listener, t)
  {
    hide Libm.Laws, PanWeights, DistanceGain, StereoOf;
    if s != [] {
      var n := |s| - 1;
      OtherListenersDoNotMatter(m, listener, s[..n], t[..n]);
      assert SoundsTheSame(s[n], t[n]);
      assert ContributionOf(m, listener, s[n]) == ContributionOf(m, listener, t[n]);
    }
  }

  // ---------------------------------------------------------------------------
  // Earshot
  // ---------------------------------------------------------------------------

  /** Exactly who is mixed for a listener in a spatial room. */
  lemma WhoIsHeard(m: Libm, listener: Member, speaker: Member)
    requires m.Laws() && listener.spatial
    ensures ContributionOf(m, listener, speaker).Some? <==>
              && speaker.id != listener.id && speaker.frame.Some? && GainFor(listener, speaker) > 0.0
              && speaker.state.known && listener.state.known
              && Dist2(speaker.state.avatarPos, listener.state.listenerPos) < MAX_DISTANCE * MAX_DISTANCE
  {
    hide Libm.Laws, PanWeights, GainFor;
    var d2 := Dist2(speaker.state.avatarPos, listener.state.listenerPos);
    Spatial.DotSquares(Sub(speaker.state.avatarPos, listener.state.listenerPos));
    RootOrder(m, d2, MAX_DISTANCE);
    var d := DistanceTo(m, listener, speaker);
    assert DistanceGain(d) <= 0.0 <==> d >= MAX_DISTANCE;
  }

  /** Whatever messages the two viewers have sent, a speaker mixed for a listener in a
      spatial room stands less than 110 m from the listener's avatar, and both of them have
      reported where they are. */
  lemma EarshotBound(m: Libm, toListener: seq<Proto.Message>, toSpeaker: seq<Proto.Message>,
                     listener: Member, speaker: Member)
    requires m.Laws() && listener.spatial
    ensures var l := listener.(state := AppliedAll(m, NEW_CONTROL, toListener).state);
            var s := speaker.(state := AppliedAll(m, NEW_CONTROL, toSpeaker).state);
            ContributionOf(m, l, s).Some? ==>
              && Dist2(s.state.avatarPos, l.state.listenerPos) < 60.0 * 60.0
              && Dist2(s.state.avatarPos, l.state.avatarPos) < 110.0 * 110.0
              && (exists i :: 0 <= i < |toListener| && toListener[i].avatarPos.Some?)
              && (exists i :: 0 <= i < |toSpeaker| && toSpeaker[i].avatarPos.Some?)
  {
    hide Libm.Laws, ContributionOf, AppliedAll, Dist2, GainFor, Spatial.InBall;
    var l := listener.(state := AppliedAll(m, NEW_CONTROL, toListener).state);
    var s := speaker.(state := AppliedAll(m, NEW_CONTROL, toSpeaker).state);
    if ContributionOf(m, l, s).Some? {
      WhoIsHeard(m, l, s);
      EverySequenceIsSound(m, toListener);
      KnownMeansReported(m, toListener);
      KnownMeansReported(m, toSpeaker);
      var a, e, p := l.state.avatarPos, l.state.listenerPos, s.state.avatarPos;
      DistanceIsSymmetric(e, a);
      DistanceIsSymmetric(p, e);
      DistanceIsSymmetric(p, a);
      InsideTether(e, a);
      Spatial.Triangle(a, e, p, MAX_AUDIO_DIST, MAX_DISTANCE);
    }
  }

  lemma InsideTether(e: Vec3, a: Vec3)
    requires Spatial.InBall(e, a)
    ensures Dist2(e, a) <= MAX_AUDIO_DIST * MAX_AUDIO_DIST
  {
  }

  lemma DistanceIsSymmetric(a: Vec3, b: Vec3)
    ensures Dist2(a, b) == Dist2(b, a)
  {
    SquareOfDifference(a.x, b.x);
    SquareOfDifference(a.y, b.y);
    SquareOfDifference(a.z, b.z);
  }

  lemma SquareOfDifference(x: real, y: real)
    ensures (x - y) * (x - y) == (y - x) * (y - x)
  {
  }

  // ---------------------------------------------------------------------------
  // The mirror
  // ---------------------------------------------------------------------------

  predicate EarAtAvatar(a: Member) {
    a.spatial && a.state.known && a.state.listenerPos == a.state.avatarPos
  }

  /** Two people alone in a room, each with the ear at the avatar, facing the same way,
      saying the same thing and equally loud for each other. */
  predicate Mirrored(a: Member, b: Member) {
    && EarAtAvatar(a) && EarAtAvatar(b) && a.state.listenerRot == b.state.listenerRot
    && a.id != b.id && a.frame == b.frame
    && GainFor(a, b) == GainFor(b, a) >= 0.0
  }

  lemma PlacementMirror(m: Libm, a: Member, b: Member)
    requires m.Laws() && Mirrored(a, b)
    ensures Placement(m, a, b, 0) == Placement(m, b, a, 1)
    ensures Placement(m, a, b, 1) == Placement(m, b, a, 0)
  {
    hide Libm.Laws, PanWeights, DistanceGain, Dist2, GainFor;
    Spatial.PanMirror(m, a.state.avatarPos, b.state.avatarPos, a.state.listenerRot);
    DistanceIsSymmetric(a.state.avatarPos, b.state.avatarPos);
  }

  lemma AloneTogether(m: Libm, a: Member, b: Member, i: nat)
    requires m.Laws() && Mirrored(a, b)
    ensures HeardSum(m, a, [a, b], i) == Heard(m, a, b, i)
    ensures HeardSum(m, b, [a, b], i) == Heard(m, b, a, i)
  {
    hide Libm.Laws, GainFor, Placement;
    var none: seq<Member> := [];
    assert [a, b][..1] == [a] && [a][..0] == none;
    assert HeardSum(m, a, none, i) == 0.0 && HeardSum(m, b, none, i) == 0.0;
    assert HeardSum(m, a, [a], i) == Heard(m, a, a, i) == 0.0;
    assert HeardSum(m, b, [a], i) == Heard(m, b, a, i);
  }

  lemma PairMix(m: Libm, a: Member, b: Member, j: nat)
    requires m.Laws() && Mirrored(a, b) && j < 2 * FRAME_SAMPLES
    ensures |MixFor(m, a, [a, b])| == |MixFor(m, b, [a, b])| == 2 * FRAME_SAMPLES
    ensures MixFor(m, a, [a, b])[j] == SoftClip(m, Heard(m, a, b, j))
    ensures MixFor(m, b, [a, b])[j] == SoftClip(m, Heard(m, b, a, j))
  {
    hide Libm.Laws, HeardSum, Placement, ContributionsOf, GainFor, Heard;
    MixIsClippedSum(m, a, [a, b], j);
    MixIsClippedSum(m, b, [a, b], j);
    AloneTogether(m, a, b, j);
  }

  /** A hears on the left exactly what B hears on the right, and the other way round. */
  lemma MirrorTheorem(m: Libm, a: Member, b: Member, i: nat)
    requires m.Laws() && Mirrored(a, b) && i < FRAME_SAMPLES
    ensures MixFor(m, a, [a, b])[2 * i] == MixFor(m, b, [a, b])[2 * i + 1]
    ensures MixFor(m, a, [a, b])[2 * i + 1] == MixFor(m, b, [a, b])[2 * i]
  {
    hide Libm.Laws, Placement, MixFor, SoftClip, GainFor, Scaled;
    PairMix(m, a, b, 2 * i);
    PairMix(m, a, b, 2 * i + 1);
    PlacementMirror(m, a, b);
    assert (2 * i) / 2 == i == (2 * i + 1) / 2;
    assert (2 * i) % 2 == 0 && (2 * i + 1) % 2 == 1;
  }
}
