/** What a listener's roster says about everybody in the room (`build_roster`, src/room.rs, and
    `roster_json`, src/proto.rs). */
module RosterLaws {
  import opened Wrappers
  import opened Mixer
  import opened Proto
  import opened MixRoom

  /** The first voice of an agent the listener has not been told about. */
  predicate IsNew(announced: set<string>, voices: seq<Voice>, i: nat)
    requires i < |voices|
  {
    voices[i].agentId !in announced && forall j :: 0 <= j < i ==> voices[j].agentId != voices[i].agentId
  }

  /** The voice has something to say: it is new, or it is audible. */
  predicate Speaks(announced: set<string>, voices: seq<Voice>, i: nat)
    requires i < |voices|
  {
    IsNew(announced, voices, i) || voices[i].level != 0
  }

  /** The last voice of the agent that has something to say. */
  predicate IsLastWord(announced: set<string>, voices: seq<Voice>, agent: string, i: int) {
    && 0 <= i < |voices| && voices[i].agentId == agent && Speaks(announced, voices, i)
    && forall j :: i < j < |voices| && voices[j].agentId == agent ==> !Speaks(announced, voices, j)
  }

  lemma SpeakingFrom39(level: int)
    ensures Speaking(level) <==> level >= 39
  {
  }

  lemma NewIsFirst(announced: set<string>, voices: seq<Voice>)
    requires voices != []
    ensures var n := |voices| - 1;
            IsNew(announced, voices, n) <==> voices[n].agentId !in announced + Agents(voices[..n])
  {
    var n := |voices| - 1;
    var a := voices[n].agentId;
    if a in Agents(voices[..n]) {
      var v :| v in voices[..n] && v.agentId == a;
      var j :| 0 <= j < n && voices[..n][j] == v;
      assert voices[j].agentId == a;
    }
    forall j | 0 <= j < n && voices[j].agentId == a
      ensures a in Agents(voices[..n])
    {
      assert voices[..n][j] in voices[..n];
    }
  }

  lemma SpeaksInPrefix(announced: set<string>, voices: seq<Voice>, i: nat)
    requires i < |voices| - 1
    ensures Speaks(announced, voices[..|voices| - 1], i) <==> Speaks(announced, voices, i)
    ensures voices[..|voices| - 1][i] == voices[i]
  {
  }

  lemma LastWordOfLonger(announced: set<string>, voices: seq<Voice>, agent: string, i: int)
    requires voices != [] && 0 <= i < |voices|
    ensures var n := |voices| - 1;
            IsLastWord(announced, voices, agent, i) <==>
              if voices[n].agentId == agent && Speaks(announced, voices, n) then i == n
              else i < n && IsLastWord(announced, voices[..n], agent, i)
  {
    var n := |voices| - 1;
    forall j | 0 <= j < n
      ensures Speaks(announced, voices[..n], j) <==> Speaks(announced, voices, j)
      ensures voices[..n][j] == voices[j]
    {
      SpeaksInPrefix(announced, voices, j);
    }
    hide Speaks;
  }

  lemma JsonOfMore(announced: set<string>, voices: seq<Voice>)
    requires voices != []
    ensures var n := |voices| - 1;
            var before := JsonOf(EntriesFor(announced, voices[..n]));
            JsonOf(EntriesFor(announced, voices)) ==
              if Speaks(announced, voices, n)
              then before[voices[n].agentId := ToJson(EntryOf(IsNew(announced, voices, n), voices[n]))]
              else before
  {
    NewIsFirst(announced, voices);
    var n := |voices| - 1;
    var entries := EntriesFor(announced, voices[..n]);
    var e := (voices[n].agentId, EntryOf(IsNew(announced, voices, n), voices[n]));
    assert (entries + [e])[..|entries|] == entries;
  }

  lemma {:induction false} LastWordStands(announced: set<string>, voices: seq<Voice>, agent: string, i: int)
    requires IsLastWord(announced, voices, agent, i)
    ensures agent in JsonOf(EntriesFor(announced, voices))
    ensures JsonOf(EntriesFor(announced, voices))[agent] == ToJson(EntryOf(IsNew(announced, voices, i), voices[i]))
    decreases |voices|
  {
    var n := |voices| - 1;
    JsonOfMore(announced, voices);
    LastWordOfLonger(announced, voices, agent, i);
    if i < n {
      LastWordStands(announced, voices[..n], agent, i);
      NewInPrefix(announced, voices, i);
    }
    hide JsonOf, EntriesFor, ToJson, EntryOf, IsNew;
  }

  lemma NewInPrefix(announced: set<string>, voices: seq<Voice>, i: nat)
    requires i < |voices| - 1
    ensures IsNew(announced, voices[..|voices| - 1], i) == IsNew(announced, voices, i)
    ensures voices[..|voices| - 1][i] == voices[i]
  {
  }

  lemma {:induction false} SomebodySpoke(announced: set<string>, voices: seq<Voice>, agent: string)
    requires agent in JsonOf(EntriesFor(announced, voices))
    ensures exists i :: IsLastWord(announced, voices, agent, i)
  {
    if voices != [] {
      var n := |voices| - 1;
      JsonOfMore(announced, voices);
      hide JsonOf, EntriesFor, ToJson, EntryOf, IsNew;
      if voices[n].agentId == agent && Speaks(announced, voices, n) {
        LastWordOfLonger(announced, voices, agent, n);
      } else {
        SomebodySpoke(announced, voices[..n], agent);
        var i :| IsLastWord(announced, voices[..n], agent, i);
        LastWordOfLonger(announced, voices, agent, i);
      }
    }
  }

  lemma {:induction false} NobodySpeaks(announced: set<string>, voices: seq<Voice>)
    ensures EntriesFor(announced, voices) == [] <==> forall i :: 0 <= i < |voices| ==> !Speaks(announced, voices, i)
  {
    if voices != [] {
      var n := |voices| - 1;
      NobodySpeaks(announced, voices[..n]);
      EntriesOfMore(announced, voices);
      forall i | 0 <= i < n
        ensures Speaks(announced, voices[..n], i) <==> Speaks(announced, voices, i)
      {
        SpeaksInPrefix(announced, voices, i);
      }
      hide Speaks, EntriesFor;
    }
  }

  lemma EntriesOfMore(announced: set<string>, voices: seq<Voice>)
    requires voices != []
    ensures var n := |voices| - 1;
            EntriesFor(announced, voices) == [] <==>
              EntriesFor(announced, voices[..n]) == [] && !Speaks(announced, voices, n)
  {
    NewIsFirst(announced, voices);
  }

  /** What a roster says of an agent comes from one voice, the last of the agent that is
      audible or new: its power is the voice's level, the speaking flag is set from level 39
      up, nobody is ever muted by a moderator, and a join carries the voice's primary flag. */
  lemma RosterContent(announced: set<string>, voices: seq<Voice>, agent: string, i: int)
    requires IsLastWord(announced, voices, agent, i)
    ensures var roster := RosterFor(announced, voices);
            && roster.Some? && agent in roster.value
            && roster.value[agent].power == voices[i].level
            && (roster.value[agent].speaking <==> voices[i].level >= 39)
            && !roster.value[agent].moderatorMuted
            && roster.value[agent].join == if IsNew(announced, voices, i) then Some(voices[i].primary) else None
  {
    LastWordStands(announced, voices, agent, i);
    SpeakingFrom39(voices[i].level);
    NobodySpeaks(announced, voices);
    hide JsonOf, EntriesFor, IsNew, Speaking;
  }

  lemma {:induction false} SomebodyIsLast(announced: set<string>, voices: seq<Voice>, agent: string, i: nat)
    requires i < |voices| && voices[i].agentId == agent && Speaks(announced, voices, i)
    ensures exists k :: IsLastWord(announced, voices, agent, k)
    decreases |voices| - i
  {
    hide Speaks;
    if j :| i < j < |voices| && voices[j].agentId == agent && Speaks(announced, voices, j) {
      SomebodyIsLast(announced, voices, agent, j);
    } else {
      assert IsLastWord(announced, voices, agent, i);
    }
  }

  lemma {:induction false} FirstOfNew(announced: set<string>, voices: seq<Voice>, agent: string, i: nat)
    requires i < |voices| && voices[i].agentId == agent && agent !in announced
    ensures exists k: nat :: k < |voices| && voices[k].agentId == agent && IsNew(announced, voices, k)
    decreases i
  {
    if j: nat :| j < i && voices[j].agentId == agent {
      FirstOfNew(announced, voices, agent, j);
    } else {
      assert IsNew(announced, voices, i);
    }
  }

  /** Who is in a roster: exactly the agents with a voice that is audible, and those new to the
      listener. Where there are none, there is no roster. */
  lemma WhoIsInRoster(announced: set<string>, voices: seq<Voice>, agent: string)
    ensures var roster := RosterFor(announced, voices);
            (roster.Some? && agent in roster.value) <==>
              exists i ::
                0 <= i < |voices| && voices[i].agentId == agent && (agent !in announced || voices[i].level != 0)
    ensures RosterFor(announced, voices).None? <==>
              forall i :: 0 <= i < |voices| ==> voices[i].agentId in announced && voices[i].level == 0
  {
    NobodySpeaks(announced, voices);
    if agent in JsonOf(EntriesFor(announced, voices)) {
      SomebodySpoke(announced, voices, agent);
    }
    if i :| 0 <= i < |voices| && voices[i].agentId == agent && (agent !in announced || voices[i].level != 0) {
      InRoster(announced, voices, agent, i);
      var k :| IsLastWord(announced, voices, agent, k);
      LastWordStands(announced, voices, agent, k);
    }
    forall i | 0 <= i < |voices| && (voices[i].agentId !in announced || voices[i].level != 0)
      ensures exists k :: 0 <= k < |voices| && Speaks(announced, voices, k)
    {
      InRoster(announced, voices, voices[i].agentId, i);
      var k :| IsLastWord(announced, voices, voices[i].agentId, k);
      assert Speaks(announced, voices, k);
    }
    assert JsonOf([]) == map[];
    hide JsonOf, EntriesFor;
  }

  lemma InRoster(announced: set<string>, voices: seq<Voice>, agent: string, i: nat)
    requires i < |voices| && voices[i].agentId == agent && (agent !in announced || voices[i].level != 0)
    ensures exists k :: IsLastWord(announced, voices, agent, k)
  {
    if voices[i].level != 0 {
      SomebodyIsLast(announced, voices, agent, i);
    } else {
      FirstOfNew(announced, voices, agent, i);
      var k: nat :| k < |voices| && voices[k].agentId == agent && IsNew(announced, voices, k);
      SomebodyIsLast(announced, voices, agent, k);
    }
  }
}
