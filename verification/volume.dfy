/** Per-speaker volume from the browser client's slider (`setPeerVolume`,
    client/voice_llwebrtc.js) to the gain the server's mix applies. */
module Volume {
  import opened Wrappers
  import opened RealMath
  import opened Proto
  import opened Room

  const FACTOR := 220

  function Max(a: real, b: real): real { if a >= b then a else b }

  function Min(a: real, b: real): real { if a <= b then a else b }

  /** The integer the client puts on the wire. */
  function RawVolume(gain: real): int {
    (Max(0.0, gain) * FACTOR as real).Floor
  }

  /** Level and mute flag travel in one message. */
  function ClientMessage(agent: string, gain: real): Json {
    Object([
      ("ug", Object([(agent, Int(RawVolume(gain)))])),
      ("m", Object([(agent, Bool(Max(0.0, gain) <= 0.0))]))])
  }

  function HeardAs(c: Control, agent: string): real {
    PeerGainOf(c.gains, c.mutes, agent)
  }

  predicate HasRoom<V>(prefs: map<string, V>, agent: string) {
    |prefs| < MAX_PEER_ENTRIES || agent in prefs
  }

  /** The listener gets what was asked for: silence for zero or less, and otherwise the
      request, cut at the server's maximum, to within one step of the wire's scale. */
  predicate Honoured(heard: real, gain: real) {
    if gain <= 0.0 then heard == 0.0
    else heard <= Min(gain, MAX_PEER_GAIN) < heard + 1.0 / PEER_GAIN_CONVERSION_FACTOR
  }

  lemma ParsedClientMessage(agent: string, gain: real)
    ensures var msg := Parsed(ClientMessage(agent, gain));
            && msg.userMute == [(agent, gain <= 0.0)]
            && msg.userGain == if RawVolume(gain) < U64 then [(agent, RawVolume(gain) % U32)] else []
  {
    var v := ClientMessage(agent, gain);
    var raw := RawVolume(gain);
    assert raw >= 0;
    var ug := [(agent, Int(raw))];
    var mu := [(agent, Bool(Max(0.0, gain) <= 0.0))];
    assert FieldsOf(v, "ug") == ug;
    assert "ug"[0] != "m"[0];
    assert v.fields[1..] == [("m", Object(mu))];
    assert Lookup(v.fields[1..], "m") == Some(Object(mu));
    assert FieldsOf(v, "m") == mu;
    assert ug[..0] == [] && mu[..0] == [];
    assert GainEntries([]) == [] && MuteEntries([]) == [];
    assert |mu| == 1 && mu[0] == (agent, Bool(gain <= 0.0));
  }

  /** What one volume message leaves the listener hearing. */
  lemma HeardAfter(m: Libm, c: Control, agent: string, gain: real)
    requires m.Laws() && Sound(c)
    ensures var heard := HeardAs(Applied(m, c, Parsed(ClientMessage(agent, gain))), agent);
            heard == if gain <= 0.0 && HasRoom(c.mutes, agent) then 0.0
                     else if RawVolume(gain) < U64 && HasRoom(c.gains, agent) then GainOf(RawVolume(gain) % U32)
                     else if agent in c.gains then c.gains[agent]
                     else 1.0
  {
    hide Libm.Laws, StateAfter, GainsAfter, MutesAfter, Parsed, GainOf;
    ParsedClientMessage(agent, gain);
    var raw := RawVolume(gain);
    hide RawVolume;
    OneGain(c.gains, agent, raw % U32);
    OneMute(c.mutes, agent, gain <= 0.0);
    NoGain(c.gains);
  }

  lemma RawBrackets(gain: real)
    ensures RawVolume(gain) >= 0
    ensures gain <= 0.0 ==> RawVolume(gain) == 0
    ensures gain > 0.0 ==> RawVolume(gain) as real / 220.0 <= gain < RawVolume(gain) as real / 220.0 + 1.0 / 220.0
  {
  }

  /** As long as the listener's table has room for the speaker, the volume chosen on the
      slider is the volume heard exactly when it survives the 32-bit cast: below 2^32 it
      does; above, only where the low 32 bits still say "maximum"; and from 2^64 on the
      entry is ignored, so that only a preference already at the maximum will do. */
  lemma VolumeEndToEnd(m: Libm, c: Control, agent: string, gain: real)
    requires m.Laws() && Sound(c) && HasRoom(c.gains, agent)
    ensures var heard := HeardAs(Applied(m, c, Parsed(ClientMessage(agent, gain))), agent);
            var raw := RawVolume(gain);
            Honoured(heard, gain) <==>
              || raw < U32
              || (raw < U64 && raw % U32 >= 880)
              || (raw >= U64 && agent in c.gains && c.gains[agent] > 879.0 / 220.0)
  {
    hide Libm.Laws, Applied, Parsed, GainOf, RawVolume, HeardAs;
    HeardAfter(m, c, agent, gain);
    RawBrackets(gain);
    var raw := RawVolume(gain);
    GainOfRaw(raw % U32);
    if gain > 0.0 {
      WhenHonoured(gain, raw, GainOf(raw % U32));
      if agent in c.gains {
        AtMaximum(gain, raw, c.gains[agent]);
      } else {
        AtMaximum(gain, raw, 1.0);
      }
    }
  }

  lemma WhenHonoured(gain: real, raw: int, heard: real)
    requires gain > 0.0 && raw >= 0
    requires raw as real / 220.0 <= gain < raw as real / 220.0 + 1.0 / 220.0
    requires heard == if raw % U32 <= 880 then (raw % U32) as real / 220.0 else 4.0
    ensures Honoured(heard, gain) <==> raw < U32 || raw % U32 >= 880
  {
    if raw < U32 {
      assert raw % U32 == raw;
    } else {
      assert gain >= 4.0;
    }
  }

  lemma AtMaximum(gain: real, raw: int, heard: real)
    requires gain > 0.0 && raw as real / 220.0 <= gain && 0.0 <= heard <= 4.0
    ensures raw >= U32 ==> (Honoured(heard, gain) <==> heard > 879.0 / 220.0)
  {
  }

  /** A full table still takes a mute if the other table has room, and ignores any other
      volume for a speaker it does not hold. */
  lemma VolumeWithoutRoom(m: Libm, c: Control, agent: string, gain: real)
    requires m.Laws() && Sound(c) && !HasRoom(c.gains, agent)
    ensures var heard := HeardAs(Applied(m, c, Parsed(ClientMessage(agent, gain))), agent);
            heard == if gain <= 0.0 && HasRoom(c.mutes, agent) then 0.0 else 1.0
  {
    HeardAfter(m, c, agent, gain);
  }

  /** The slider value 2^32 / 220 asks for the maximum and is heard as silence. */
  lemma HugeVolumeWraps(m: Libm, agent: string)
    requires m.Laws()
    ensures var gain := U32 as real / 220.0;
            var c := Applied(m, NEW_CONTROL, Parsed(ClientMessage(agent, gain)));
            HeardAs(c, agent) == 0.0 && !Honoured(HeardAs(c, agent), gain)
  {
    var gain := U32 as real / 220.0;
    assert RawVolume(gain) == U32;
    HeardAfter(m, NEW_CONTROL, agent, gain);
  }
}
