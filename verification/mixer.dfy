/** Exact real arithmetic in the place of the source's floats: the library functions the
    mixer calls, and the only facts about them the proofs use. */
module RealMath {

  datatype Libm = Libm(
    sqrt: real -> real,
    sin: real -> real,
    cos: real -> real,
    tanh: real -> real,
    quarterPi: real,
    rootHalf: real)
  {
    ghost predicate Laws() {
      && (forall x :: x >= 0.0 ==> sqrt(x) >= 0.0 && sqrt(x) * sqrt(x) == x)
      && (forall x :: -1.0 < tanh(x) < 1.0)
      && (forall a {:trigger cos(a)} :: sin(a) * sin(a) + cos(a) * cos(a) == 1.0)
      && (forall a {:trigger cos(a)} :: cos(a) == sin(2.0 * quarterPi - a))
      && (forall a, b :: 0.0 <= a < b <= 2.0 * quarterPi ==> sin(a) < sin(b))
      && sin(0.0) == 0.0
      && quarterPi > 0.0
      && rootHalf > 0.0 && rootHalf * rootHalf == 0.5
    }
  }

  datatype Vec3 = Vec3(x: real, y: real, z: real)

  datatype Quat = Quat(x: real, y: real, z: real, w: real)

  function Sub(a: Vec3, b: Vec3): Vec3 { Vec3(a.x - b.x, a.y - b.y, a.z - b.z) }

  function Add(a: Vec3, b: Vec3): Vec3 { Vec3(a.x + b.x, a.y + b.y, a.z + b.z) }

  function Scale(k: real, a: Vec3): Vec3 { Vec3(k * a.x, k * a.y, k * a.z) }

  function Dot(a: Vec3, b: Vec3): real { a.x * b.x + a.y * b.y + a.z * b.z }

  function Cross(a: Vec3, b: Vec3): Vec3 {
    Vec3(a.y * b.z - a.z * b.y, a.z * b.x - a.x * b.z, a.x * b.y - a.y * b.x)
  }

  /** Squared distance. */
  function Dist2(a: Vec3, b: Vec3): real { Dot(Sub(a, b), Sub(a, b)) }

  function Norm2(q: Quat): real { q.x * q.x + q.y * q.y + q.z * q.z + q.w * q.w }

  function Conjugate(q: Quat): Quat { Quat(-q.x, -q.y, -q.z, q.w) }

  function VectorPart(q: Quat): Vec3 { Vec3(q.x, q.y, q.z) }

  lemma PositiveProduct(a: real, b: real)
    requires a > 0.0 && b > 0.0
    ensures a * b > 0.0
  {
  }

  lemma SquaresAreOrdered(a: real, b: real)
    requires a >= 0.0 && b >= 0.0
    ensures a <= b <==> a * a <= b * b
    ensures a == b <==> a * a == b * b
  {
    assert b * b - a * a == (b - a) * (b + a);
    if a < b {
      PositiveProduct(b - a, b + a);
    } else if b < a {
      PositiveProduct(a - b, b + a);
    }
  }

  lemma Root(m: Libm, x: real)
    requires m.Laws() && x >= 0.0
    ensures m.sqrt(x) >= 0.0 && m.sqrt(x) * m.sqrt(x) == x
  {
  }

  lemma Turn(m: Libm, a: real)
    requires m.Laws()
    ensures m.cos(a) == m.sin(2.0 * m.quarterPi - a)
    ensures m.sin(a) * m.sin(a) + m.cos(a) * m.cos(a) == 1.0
    ensures m.quarterPi > 0.0
  {
  }

  /** Comparing a root with a number is comparing squares. */
  lemma RootOrder(m: Libm, x: real, y: real)
    requires m.Laws() && x >= 0.0 && y >= 0.0
    ensures m.sqrt(x) <= y <==> x <= y * y
    ensures m.sqrt(x) >= y <==> x >= y * y
    ensures m.sqrt(x) == y <==> x == y * y
  {
    var r := m.sqrt(x);
    Root(m, x);
    hide Libm.Laws;
    SquaresAreOrdered(r, y);
    SquaresAreOrdered(y, r);
  }
}

/** Per-listener spatial mixing (src/mixer.rs). */
module Mixer {
  import opened RealMath

  const FRAME_SAMPLES := 960
  const REF_DISTANCE := 10.0
  const MAX_DISTANCE := 60.0
  const MAX_AUDIO_DIST := 50.0
  const LEVEL_SCALE_TO_WIRE := 128.0
  const SPEAKING_AUDIO_LEVEL := 0.30

  type Frame = seq<real>

  function DistanceGain(distance: real): real {
    if distance <= REF_DISTANCE then 1.0
    else if distance >= MAX_DISTANCE then 0.0
    else 1.0 - (distance - REF_DISTANCE) / (MAX_DISTANCE - REF_DISTANCE)
  }

  function Tether(m: Libm, listener: Vec3, avatar: Vec3): Vec3
    requires m.Laws()
  {
    var off := Sub(listener, avatar);
    var d := m.sqrt(Dot(off, off));
    if d <= MAX_AUDIO_DIST || d == 0.0 then listener
    else
      var k := MAX_AUDIO_DIST / d;
      Vec3(avatar.x + off.x * k, avatar.y + off.y * k, avatar.z + off.z * k)
  }

  /** `(tx, ty, tz)` of the rotation, for the vector part `c` of the conjugate. */
  function Turned(c: Vec3, v: Vec3): Vec3 {
    Vec3(2.0 * (c.y * v.z - c.z * v.y), 2.0 * (c.z * v.x - c.x * v.z), 2.0 * (c.x * v.y - c.y * v.x))
  }

  /** The expanded rotation, for `t` from above. */
  function Swung(v: Vec3, qw: real, c: Vec3, t: Vec3): Vec3 {
    Vec3(v.x + qw * t.x + (c.y * t.z - c.z * t.y),
         v.y + qw * t.y + (c.z * t.x - c.x * t.z),
         v.z + qw * t.z + (c.x * t.y - c.y * t.x))
  }

  function WorldToLocal(v: Vec3, q: Quat): Vec3 {
    var c := VectorPart(Conjugate(q));
    Swung(v, q.w, c, Turned(c, v))
  }

  function Clamp(x: real, lo: real, hi: real): real {
    if x < lo then lo else if x > hi then hi else x
  }

  /** Where the speaker is between hard left (-1) and hard right (1). */
  function Lateral(m: Libm, speaker: Vec3, ear: Vec3, rot: Quat): real
    requires m.Laws()
  {
    var local := WorldToLocal(Sub(speaker, ear), rot);
    LateralOf(m, local.x, local.y)
  }

  function Horizontal(m: Libm, x: real, y: real): real {
    m.sqrt(x * x + y * y)
  }

  /** Directly on top of the listener counts as the centre. */
  function LateralOf(m: Libm, x: real, y: real): real
    requires m.Laws()
  {
    var horiz := Horizontal(m, x, y);
    if horiz < 0.000001 then 0.0 else x / horiz
  }

  function PanAngle(m: Libm, speaker: Vec3, ear: Vec3, rot: Quat): real
    requires m.Laws()
  {
    (Clamp(Lateral(m, speaker, ear, rot), -1.0, 1.0) + 1.0) * m.quarterPi
  }

  /** Left and right weight. */
  function PanWeights(m: Libm, speaker: Vec3, ear: Vec3, rot: Quat): (real, real)
    requires m.Laws()
  {
    var angle := PanAngle(m, speaker, ear, rot);
    (m.cos(angle), m.sin(angle))
  }

  function SumOfSquares(frame: Frame): real {
    if frame == [] then 0.0 else SumOfSquares(frame[..|frame| - 1]) + frame[|frame| - 1] * frame[|frame| - 1]
  }

  function LevelToWire(m: Libm, frame: Frame): int {
    if frame == [] then 0
    else
      var rms := m.sqrt(SumOfSquares(frame) / |frame| as real);
      var scaled := if rms * 4.0 < 1.0 then rms * 4.0 else 1.0;
      var wire := scaled * LEVEL_SCALE_TO_WIRE;
      (if wire < 127.0 then wire else 127.0).Floor
  }

  predicate Speaking(level: int) {
    level as real / LEVEL_SCALE_TO_WIRE > SPEAKING_AUDIO_LEVEL
  }

  datatype Contribution = Contribution(frame: Frame, gain: real, pan: (real, real))

  /** What one contribution adds to sample `i` of the interleaved buffer. */
  function Term(c: Contribution, i: nat): real {
    if c.gain <= 0.0 || i / 2 >= |c.frame| || i / 2 >= FRAME_SAMPLES then 0.0
    else c.frame[i / 2] * (c.gain * if i % 2 == 0 then c.pan.0 else c.pan.1)
  }

  function SampleSum(cs: seq<Contribution>, i: nat): real {
    if cs == [] then 0.0 else SampleSum(cs[..|cs| - 1], i) + Term(cs[|cs| - 1], i)
  }

  function SoftClip(m: Libm, x: real): real {
    if x > 1.0 || x < -1.0 then m.tanh(x) else x
  }

  function StereoOf(m: Libm, cs: seq<Contribution>): Frame {
    seq(2 * FRAME_SAMPLES, i requires 0 <= i < 2 * FRAME_SAMPLES => SoftClip(m, SampleSum(cs, i)))
  }

  /** Sum the contributions into `out` and clip, in place. */
  method MixStereo(m: Libm, contributions: seq<Contribution>, out: array<real>)
    requires out.Length == 2 * FRAME_SAMPLES
    modifies out
    ensures out[..] == StereoOf(m, contributions)
  {
    for i := 0 to out.Length
      invariant forall j :: 0 <= j < i ==> out[j] == 0.0
    {
      out[i] := 0.0;
    }
    for n := 0 to |contributions|
      invariant forall j :: 0 <= j < out.Length ==> out[j] == SampleSum(contributions[..n], j)
    {
      var c := contributions[n];
      assert contributions[..n + 1][..n] == contributions[..n];
      if c.gain > 0.0 {
        Accumulate(c, contributions[..n], out);
      }
      assert forall j :: 0 <= j < out.Length ==>
          SampleSum(contributions[..n + 1], j) == SampleSum(contributions[..n], j) + Term(c, j);
    }
    assert contributions[..|contributions|] == contributions;
    for i := 0 to out.Length
      invariant forall j :: 0 <= j < i ==> out[j] == SoftClip(m, SampleSum(contributions, j))
      invariant forall j :: i <= j < out.Length ==> out[j] == SampleSum(contributions, j)
    {
      if out[i] > 1.0 || out[i] < -1.0 {
        out[i] := m.tanh(out[i]);
      }
    }
  }

  /** The inner loop of `mix_stereo`. */
  method Accumulate(c: Contribution, ghost before: seq<Contribution>, out: array<real>)
    requires out.Length == 2 * FRAME_SAMPLES && c.gain > 0.0
    requires forall j :: 0 <= j < out.Length ==> out[j] == SampleSum(before, j)
    modifies out
    ensures forall j :: 0 <= j < out.Length ==> out[j] == SampleSum(before, j) + Term(c, j)
  {
    hide SampleSum, Term;
    var gl := c.gain * c.pan.0;
    var gr := c.gain * c.pan.1;
    var n := if |c.frame| < FRAME_SAMPLES then |c.frame| else FRAME_SAMPLES;
    for i := 0 to n
      invariant forall j :: 0 <= j < 2 * i ==> out[j] == SampleSum(before, j) + Term(c, j)
      invariant forall j :: 2 * i <= j < out.Length ==> out[j] == SampleSum(before, j)
    {
      var s := c.frame[i];
      out[i * 2] := out[i * 2] + s * gl;
      out[i * 2 + 1] := out[i * 2 + 1] + s * gr;
      TermsOfFrame(c, i);
    }
    SilentTail(c);
  }

  lemma TermsOfFrame(c: Contribution, i: nat)
    requires c.gain > 0.0 && i < |c.frame| && i < FRAME_SAMPLES
    ensures Term(c, 2 * i) == c.frame[i] * (c.gain * c.pan.0)
    ensures Term(c, 2 * i + 1) == c.frame[i] * (c.gain * c.pan.1)
  {
  }

  /** A short frame is followed by silence. */
  lemma SilentTail(c: Contribution)
    ensures forall j :: j >= 2 * |c.frame| ==> Term(c, j) == 0.0
  {
  }
}
