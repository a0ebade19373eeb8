/** Inbound audio: splitting a decoded packet into 20 ms frames (src/session.rs) and the
    bounded queue the frames wait in (src/room.rs). */
module Jitter {
  import opened Mixer
  import opened Room

  // ---------------------------------------------------------------------------
  // Splitting a packet
  // ---------------------------------------------------------------------------

  function Silence(n: nat): Frame {
    seq(n, _ => 0.0)
  }

  function SplitFrames(samples: seq<real>): seq<Frame> {
    if |samples| >= FRAME_SAMPLES then [samples[..FRAME_SAMPLES]] + SplitFrames(samples[FRAME_SAMPLES..])
    else if |samples| > 0 then [samples + Silence(FRAME_SAMPLES - |samples|)]
    else []
  }

  function PushAll(q: seq<Frame>, frames: seq<Frame>): seq<Frame>
    decreases |frames|
  {
    if frames == [] then q else PushAll(Pushed(q, frames[0]), frames[1..])
  }

  /** The decode loop's body for one packet of `n` samples. */
  method SplitPacket(session: Session, pcm: array<real>, n: nat)
    requires session.Valid() && n <= pcm.Length
    modifies session`inbound
    ensures session.Valid()
    ensures session.inbound == PushAll(old(session.inbound), SplitFrames(pcm[..n]))
  {
    var off := 0;
    while off + FRAME_SAMPLES <= n
      invariant 0 <= off <= n && session.Valid()
      invariant PushAll(session.inbound, SplitFrames(pcm[off..n]))
                == PushAll(old(session.inbound), SplitFrames(pcm[..n]))
    {
      assert pcm[off..n][..FRAME_SAMPLES] == pcm[off..off + FRAME_SAMPLES];
      assert pcm[off..n][FRAME_SAMPLES..] == pcm[off + FRAME_SAMPLES..n];
      FirstFrame(session.inbound, pcm[off..n]);
      session.PushFrame(pcm[off..off + FRAME_SAMPLES]);
      off := off + FRAME_SAMPLES;
    }
    LastFrame(session.inbound, pcm[off..n]);
    if off < n {
      var tail := pcm[off..n] + Silence(FRAME_SAMPLES - (n - off));
      session.PushFrame(tail);
    }
  }

  lemma FirstFrame(q: seq<Frame>, samples: seq<real>)
    requires |samples| >= FRAME_SAMPLES
    ensures PushAll(q, SplitFrames(samples))
            == PushAll(Pushed(q, samples[..FRAME_SAMPLES]), SplitFrames(samples[FRAME_SAMPLES..]))
  {
    assert SplitFrames(samples)[1..] == SplitFrames(samples[FRAME_SAMPLES..]);
  }

  lemma LastFrame(q: seq<Frame>, samples: seq<real>)
    requires |samples| < FRAME_SAMPLES
    ensures PushAll(q, SplitFrames(samples))
            == if samples == [] then q else Pushed(q, samples + Silence(FRAME_SAMPLES - |samples|))
  {
    if samples != [] {
      assert SplitFrames(samples)[1..] == [];
    }
  }

  function Concat(frames: seq<Frame>): seq<real> {
    if frames == [] then [] else frames[0] + Concat(frames[1..])
  }

  /** A packet becomes ceil(n / 960) whole frames that carry its samples in order, followed
      by less than one frame of silence. */
  lemma {:induction false} SplitConserves(samples: seq<real>)
    ensures |SplitFrames(samples)| == (|samples| + 959) / 960
    ensures forall i :: 0 <= i < |SplitFrames(samples)| ==> |SplitFrames(samples)[i]| == 960
    ensures var padding := |SplitFrames(samples)| * FRAME_SAMPLES - |samples|;
            0 <= padding < FRAME_SAMPLES && Concat(SplitFrames(samples)) == samples + Silence(padding)
    ensures samples <= Concat(SplitFrames(samples))
    ensures forall k :: |samples| <= k < |Concat(SplitFrames(samples))| ==> Concat(SplitFrames(samples))[k] == 0.0
  {
    if |samples| >= FRAME_SAMPLES {
      var rest := samples[FRAME_SAMPLES..];
      SplitConserves(rest);
      assert SplitFrames(samples)[1..] == SplitFrames(rest);
      assert samples == samples[..FRAME_SAMPLES] + rest;
    } else if samples != [] {
      assert SplitFrames(samples)[1..] == [];
    }
  }

  // ---------------------------------------------------------------------------
  // The queue keeps the newest frames
  // ---------------------------------------------------------------------------

  function Newest(q: seq<Frame>): seq<Frame> {
    if |q| <= 10 then q else q[|q| - 10..]
  }

  lemma {:induction false} PushAllKeepsNewest(q: seq<Frame>, frames: seq<Frame>)
    requires |q| <= JITTER_MAX_FRAMES
    ensures PushAll(q, frames) == Newest(q + frames)
    decreases |frames|
  {
    if frames == [] {
      assert q + frames == q;
    } else {
      PushAllKeepsNewest(Pushed(q, frames[0]), frames[1..]);
      var all := q + frames;
      var next := Pushed(q, frames[0]) + frames[1..];
      if |q| >= JITTER_MAX_FRAMES {
        assert next == all[1..];
      } else {
        assert next == all;
      }
    }
  }

  /** The largest packet the decoder can produce never evicts its own audio. */
  lemma PacketSurvives(q: seq<Frame>, samples: seq<real>)
    requires |q| <= JITTER_MAX_FRAMES && |samples| <= 5760
    ensures var q' := PushAll(q, SplitFrames(samples));
            var n := |SplitFrames(samples)|;
            n <= 6 && n <= |q'| && q'[|q'| - n..] == SplitFrames(samples)
  {
    SplitConserves(samples);
    PushAllKeepsNewest(q, SplitFrames(samples));
  }

  // ---------------------------------------------------------------------------
  // Any run of pushes and takes
  // ---------------------------------------------------------------------------

  datatype QueueOp = Push(frame: Frame) | Take

  function QueueAfter(ops: seq<QueueOp>): seq<Frame> {
    if ops == [] then []
    else
      var q := QueueAfter(ops[..|ops| - 1]);
      match ops[|ops| - 1]
      case Push(f) => Pushed(q, f)
      case Take => TakenFrom(q).1
  }

  /** The frames the takes returned, in order. */
  function TakenAfter(ops: seq<QueueOp>): seq<Frame> {
    if ops == [] then []
    else
      var before := TakenAfter(ops[..|ops| - 1]);
      var q := QueueAfter(ops[..|ops| - 1]);
      if ops[|ops| - 1].Take? && q != [] then before + [q[0]] else before
  }

  function PushesOf(ops: seq<QueueOp>): seq<Frame> {
    if ops == [] then []
    else
      var before := PushesOf(ops[..|ops| - 1]);
      match ops[|ops| - 1]
      case Push(f) => before + [f]
      case Take => before
  }

  /** How a frame left the queue. */
  datatype Fate = Played | Dropped

  function PlayedOf(frames: seq<Frame>, fates: seq<Fate>): seq<Frame>
    requires |frames| == |fates|
  {
    if fates == [] then []
    else
      var n := |fates| - 1;
      var before := PlayedOf(frames[..n], fates[..n]);
      if fates[n].Played? then before + [frames[n]] else before
  }

  function CountDropped(fates: seq<Fate>): nat {
    if fates == [] then 0
    else CountDropped(fates[..|fates| - 1]) + if fates[|fates| - 1].Dropped? then 1 else 0
  }

  /** The first |fates| pushed frames have left, each as its fate says, and the rest wait. */
  ghost predicate Accounts(ops: seq<QueueOp>, fates: seq<Fate>) {
    var pushes := PushesOf(ops);
    && |fates| <= |pushes|
    && QueueAfter(ops) == pushes[|fates|..]
    && TakenAfter(ops) == PlayedOf(pushes[..|fates|], fates)
    && |pushes| == |TakenAfter(ops)| + CountDropped(fates) + |QueueAfter(ops)|
  }

  lemma OneMoreFate(frames: seq<Frame>, fates: seq<Fate>, n: nat, fate: Fate)
    requires |fates| == n < |frames|
    ensures PlayedOf(frames[..n + 1], fates + [fate])
            == if fate.Played? then PlayedOf(frames[..n], fates) + [frames[n]] else PlayedOf(frames[..n], fates)
    ensures CountDropped(fates + [fate]) == CountDropped(fates) + if fate.Dropped? then 1 else 0
  {
    assert (fates + [fate])[..n] == fates;
    assert frames[..n + 1][..n] == frames[..n];
  }

  lemma AccountPush(before: seq<QueueOp>, f: Frame, fates: seq<Fate>)
    requires |QueueAfter(before)| <= JITTER_MAX_FRAMES && Accounts(before, fates)
    ensures exists fates' :: Accounts(before + [Push(f)], fates')
  {
    var ops := before + [Push(f)];
    assert ops[..|ops| - 1] == before;
    var n, q := |fates|, QueueAfter(before);
    var frames := PushesOf(ops);
    assert frames == PushesOf(before) + [f];
    assert frames[..n] == PushesOf(before)[..n];
    if |q| >= JITTER_MAX_FRAMES {
      OneMoreFate(frames, fates, n, Dropped);
      assert frames[n + 1..] == q[1..] + [f];
      assert Accounts(ops, fates + [Dropped]);
    } else {
      assert frames[n..] == q + [f];
      assert Accounts(ops, fates);
    }
  }

  lemma AccountTake(before: seq<QueueOp>, fates: seq<Fate>)
    requires Accounts(before, fates)
    ensures exists fates' :: Accounts(before + [Take], fates')
  {
    var ops := before + [Take];
    assert ops[..|ops| - 1] == before;
    var n, q := |fates|, QueueAfter(before);
    var pushes := PushesOf(before);
    if q == [] {
      assert Accounts(ops, fates);
    } else {
      OneMoreFate(pushes, fates, n, Played);
      assert pushes[n + 1..] == pushes[n..][1..];
      assert Accounts(ops, fates + [Played]);
    }
  }

  /** Over any run of pushes and takes the queue is the tail of what was pushed, at most ten
      frames long; frames are played in the order they were pushed; and every frame pushed
      was played, dropped, or still waits. */
  lemma {:induction false} QueueConserves(ops: seq<QueueOp>)
    ensures |QueueAfter(ops)| <= 10
    ensures exists fates :: Accounts(ops, fates)
  {
    if ops == [] {
      assert Accounts(ops, []);
    } else {
      var before, last := ops[..|ops| - 1], ops[|ops| - 1];
      QueueConserves(before);
      var fates :| Accounts(before, fates);
      assert ops == before + [last];
      match last
      case Push(f) => AccountPush(before, f, fates);
      case Take => AccountTake(before, fates);
    }
  }
}
