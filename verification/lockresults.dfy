/** What every interleaving of provisions and drops guarantees. */
module LockResults {
  import opened Wrappers
  import opened Room
  import opened Indices
  import opened LockSteps

  lemma {:induction false} PrefixIsPossible(run: seq<Action>, n: nat)
    requires Possible(run) && n <= |run|
    ensures Possible(run[..n])
    decreases |run| - n
  {
    if n == |run| {
      assert run[..n] == run;
    } else {
      PrefixIsPossible(run, n + 1);
      assert run[..n + 1][..n] == run[..n];
    }
  }

  /** The state after the first `n` steps. */
  function At(run: seq<Action>, n: nat): State
    requires Possible(run) && n <= |run|
  {
    PrefixIsPossible(run, n);
    After(run[..n])
  }

  lemma Step(run: seq<Action>, n: nat)
    requires Possible(run) && n < |run|
    ensures Enabled(At(run, n), run[n]) && At(run, n + 1) == Next(At(run, n), run[n])
    ensures Inv(At(run, n)) && Inv(At(run, n + 1))
  {
    hide Next, Enabled, Inv;
    PrefixIsPossible(run, n);
    PrefixIsPossible(run, n + 1);
    InvHolds(run[..n]);
    InvHolds(run[..n + 1]);
    assert run[..n + 1][..n] == run[..n] && run[..n + 1][n] == run[n];
  }

  lemma InvAt(run: seq<Action>, n: nat)
    requires Possible(run) && n <= |run|
    ensures Inv(At(run, n))
  {
    hide Inv;
    PrefixIsPossible(run, n);
    InvHolds(run[..n]);
  }

  // ---------------------------------------------------------------------------
  // The registry
  // ---------------------------------------------------------------------------

  lemma ListedIds(s: State, id: string, r: RoomKey)
    requires IdsInv(s) && ListsInv(s) && id in ListOf(s.byRoom, r)
    ensures IsListable(s, id) && WhoIs(s, id).room == r
  {
    var ids := Listable(s);
    var rooms := RoomsOf(s, ids);
    hide Listable, IdsInv;
    assert id in rooms && rooms[id] == r;
  }

  lemma LiveIsListed(s: State, id: string)
    requires IdsInv(s) && ListsInv(s) && id in s.bySession
    ensures id in ListOf(s.byRoom, s.bySession[id].room) && WhoIs(s, id) == s.bySession[id]
  {
    var ids := Listable(s);
    var rooms := RoomsOf(s, ids);
    LiveIsKnown(s, id);
    assert id in ids;
    hide Listable, IdsInv;
    assert id in rooms && rooms[id] == WhoIs(s, id).room;
  }

  lemma ListsAreClean(s: State, r: RoomKey)
    requires ListsInv(s)
    ensures Distinct(ListOf(s.byRoom, r)) && (r in s.byRoom ==> s.byRoom[r] != [])
  {
    hide Listable;
  }

  /** At any moment of any run: every registered session is listed exactly once, in its own
      room; an id that is listed without a session belongs to an unfinished insert or to an
      unfinished removal; and no empty room is kept. */
  lemma RegistryTheorem(run: seq<Action>, n: nat)
    requires Possible(run) && n <= |run|
    ensures var s := At(run, n);
            && (forall id, r :: id in s.bySession ==> (id in ListOf(s.byRoom, r) <==> r == s.bySession[id].room))
            && (forall r :: Distinct(ListOf(s.byRoom, r)))
            && (forall id, r ::
                  id in ListOf(s.byRoom, r) && id !in s.bySession ==> IsListing(s, id) || IsDelisting(s, id))
            && (forall r :: r in s.byRoom ==> s.byRoom[r] != [])
  {
    hide At, IdsInv, ListsInv, EndpointsInv, DeparturesInv, WhoIs, ListOf;
    InvAt(run, n);
    var s := At(run, n);
    forall r
      ensures Distinct(ListOf(s.byRoom, r))
    {
      ListsAreClean(s, r);
    }
    forall r | r in s.byRoom
      ensures s.byRoom[r] != []
    {
      ListsAreClean(s, r);
    }
    forall id, r | id in ListOf(s.byRoom, r) && id !in s.bySession
      ensures IsListing(s, id) || IsDelisting(s, id)
    {
      ListedIds(s, id, r);
    }
    forall id, r | id in s.bySession
      ensures id in ListOf(s.byRoom, r) <==> r == s.bySession[id].room
    {
      LiveIsListed(s, id);
      if id in ListOf(s.byRoom, r) {
        ListedIds(s, id, r);
      }
    }
  }

  // ---------------------------------------------------------------------------
  // Reading a room's members
  // ---------------------------------------------------------------------------

  /** From one moment of a run to a later one: ids keep their meaning, and what has left the
      registry stays out. */
  ghost predicate Later(s: State, s': State) {
    && (forall id :: id in s.who ==> id in s'.who && s'.who[id] == s.who[id])
    && s.taker.Keys <= s'.taker.Keys
    && (forall id :: id in s.bySession && id !in s'.bySession ==> id in s'.taker)
  }

  lemma {:induction false} LaterIsLater(run: seq<Action>, i: nat, j: nat)
    requires Possible(run) && i <= j <= |run|
    ensures Later(At(run, i), At(run, j))
    decreases j
  {
    hide At, Next, Enabled, IdsInv, ListsInv, EndpointsInv, DeparturesInv;
    if i < j {
      LaterIsLater(run, i, j - 1);
      Step(run, j - 1);
      StepIsMonotone(At(run, j - 1), run[j - 1]);
    }
  }

  lemma {:induction false} LiveIsDistinct(ids: seq<string>, bySession: map<string, Who>)
    requires Distinct(ids)
    ensures Distinct(Live(ids, bySession))
  {
    if ids != [] {
      var before, last := ids[..|ids| - 1], ids[|ids| - 1];
      LiveIsDistinct(before, bySession);
      assert last !in before;
      DistinctAppend(Live(before, bySession), last);
    }
  }

  /** What `members(room)` returns when its first lock falls at step `i` and its second at
      step `j`. */
  function MembersRead(run: seq<Action>, room: RoomKey, i: nat, j: nat): seq<string>
    requires Possible(run) && i <= j <= |run|
  {
    Live(ListOf(At(run, i).byRoom, room), At(run, j).bySession)
  }

  /** However many steps of others fall between its two locks, `members` returns no session
      twice, every session of the room that is live at both locks, and only sessions of the
      room that are live at the second. */
  lemma MembersTheorem(run: seq<Action>, room: RoomKey, i: nat, j: nat)
    requires Possible(run) && i <= j <= |run|
    ensures Distinct(MembersRead(run, room, i, j))
    ensures forall id :: id in MembersRead(run, room, i, j) ==>
              id in At(run, j).bySession && At(run, j).bySession[id].room == room
    ensures forall id ::
              id in At(run, i).bySession && id in At(run, j).bySession && At(run, j).bySession[id].room == room ==>
              id in MembersRead(run, room, i, j)
  {
    hide At, IdsInv, ListsInv, EndpointsInv, DeparturesInv, Live, ListOf;
    var s, s' := At(run, i), At(run, j);
    InvAt(run, i);
    InvAt(run, j);
    RegistryTheorem(run, i);
    LaterIsLater(run, i, j);
    RoomListIsKnown(s, room);
    LiveIsDistinct(ListOf(s.byRoom, room), s'.bySession);
    forall id | id in s.bySession
      ensures id in s.who && s.who[id] == s.bySession[id]
    {
      LiveIsKnown(s, id);
    }
    forall id | id in s'.bySession
      ensures id in s'.who && s'.who[id] == s'.bySession[id]
    {
      LiveIsKnown(s', id);
    }
  }

  // ---------------------------------------------------------------------------
  // Racing drops
  // ---------------------------------------------------------------------------

  ghost predicate GotIt(s: State, t: nat, id: string) {
    t in s.drops && s.drops[t].Holds() && s.drops[t].id == id
  }

  /** However many drops race on one id, no two of them get its session, so at most one of
      them broadcasts; and if the session was registered and is gone, exactly one got it. */
  lemma OneDropGetsTheSession(run: seq<Action>, i: nat, j: nat, id: string)
    requires Possible(run) && i <= j <= |run|
    ensures forall t, u :: GotIt(At(run, j), t, id) && GotIt(At(run, j), u, id) ==> t == u
    ensures id in At(run, i).bySession && id !in At(run, j).bySession ==> exists t :: GotIt(At(run, j), t, id)
  {
    hide At, IdsInv, ListsInv, EndpointsInv, DeparturesInv;
    InvAt(run, j);
    LaterIsLater(run, i, j);
    TakerHolds(At(run, j), id);
    if id in At(run, j).taker {
      assert GotIt(At(run, j), At(run, j).taker[id], id);
    }
  }

  predicate Removes(run: seq<Action>, k: nat, w: Who)
    requires Possible(run)
  {
    k < |run| && Removal(At(run, k), run[k], w)
  }

  predicate Announces(run: seq<Action>, k: nat, w: Who)
    requires Possible(run)
  {
    k < |run| && Announcement(At(run, k), run[k], w)
  }

  ghost predicate NotRemovedIn(run: seq<Action>, from: nat, to: nat, w: Who)
    requires Possible(run)
  {
    forall j: nat :: from <= j < to ==> !Removes(run, j, w)
  }

  /** Step `k` announces `w`, and no session of `w` is removed between then and step `n`. */
  ghost predicate LastAnnouncement(run: seq<Action>, k: nat, n: nat, w: Who)
    requires Possible(run)
  {
    k < n && Announces(run, k, w) && NotRemovedIn(run, k + 1, n, w)
  }

  lemma AnnouncementStillLast(run: seq<Action>, k: nat, n: nat, w: Who)
    requires Possible(run) && LastAnnouncement(run, k, n, w) && !Removes(run, n, w)
    ensures LastAnnouncement(run, k, n + 1, w)
  {
    hide At, Announces, Removes;
  }

  lemma {:induction false} DepartedMeans(run: seq<Action>, n: nat, w: Who)
    requires Possible(run) && n <= |run| && w in At(run, n).departed
    ensures exists k: nat :: LastAnnouncement(run, k, n, w)
  {
    if n == 0 {
      NothingDepartedAtStart(run);
    } else {
      Step(run, n - 1);
      hide At, Next, Enabled, Inv, Removal, Announcement, NotRemovedIn;
      DepartedStep(At(run, n - 1), run[n - 1], w);
      if Announces(run, n - 1, w) {
        NothingAfter(run, n, w);
        assert LastAnnouncement(run, n - 1, n, w);
      } else {
        DepartedMeans(run, n - 1, w);
        var k: nat :| LastAnnouncement(run, k, n - 1, w);
        AnnouncementStillLast(run, k, n - 1, w);
      }
    }
  }

  lemma NothingAfter(run: seq<Action>, n: nat, w: Who)
    requires Possible(run)
    ensures NotRemovedIn(run, n, n, w)
  {
    hide Removes;
  }

  lemma NothingDepartedAtStart(run: seq<Action>)
    requires Possible(run)
    ensures At(run, 0) == INIT
  {
    PrefixIsPossible(run, 0);
    assert run[..0] == [];
  }

  /** When an agent has lost a session in a room, has none there any more, and no drop for it
      is still under way, then some drop has decided to broadcast the departure, and it did
      so after the last removal. */
  lemma LastDropAnnounces(run: seq<Action>, k: nat, n: nat, w: Who)
    requires Possible(run) && k < n <= |run| && Removes(run, k, w)
    requires !Present(At(run, n).bySession, w)
    requires !Handled(At(run, n).who, At(run, n).drops, At(run, n).taker, w)
    ensures exists j: nat :: LastAnnouncement(run, j, n, w)
  {
    hide At, Next, Enabled, IdsInv, ListsInv, EndpointsInv, DeparturesInv, Handled, Present;
    Step(run, k);
    RemovalIsRecorded(At(run, k), run[k], w);
    LaterIsLater(run, k + 1, n);
    InvAt(run, n);
    DepartureIsSettled(At(run, n), At(run, k).drops[run[k].t].id);
    DepartedMeans(run, n, w);
  }

  lemma {:induction false} DecisionStays(run: seq<Action>, i: nat, j: nat, t: nat)
    requires Possible(run) && i <= j <= |run|
    requires t in At(run, i).drops && At(run, i).drops[t].LeaveRead?
    ensures t in At(run, j).drops && (At(run, j).drops[t] == At(run, i).drops[t] || At(run, j).drops[t].Decided?)
    decreases j
  {
    hide At, Next, Enabled, Inv;
    if i < j {
      DecisionStays(run, i, j - 1, t);
      Step(run, j - 1);
      PendingDecisionStays(At(run, j - 1), run[j - 1], t);
    }
  }

  /** A departure is announced only when the agent has no session in the room that was there
      both when the drop read the room's list and when it looked the sessions up. */
  lemma NoFalseDeparture(run: seq<Action>, i: nat, k: nat, id: string)
    requires Possible(run) && i < k < |run| && run[i].ReadIds? && run[k] == Decide(run[i].t)
    requires id in At(run, i).bySession && id in At(run, k).bySession
    ensures !Announces(run, k, At(run, k).bySession[id])
  {
    hide At, Next, Enabled, IdsInv, ListsInv, EndpointsInv, DeparturesInv;
    var t := run[i].t;
    var w := At(run, k).bySession[id];
    Step(run, i);
    ReadStep(At(run, i), t);
    DecisionStays(run, i + 1, k, t);
    LaterIsLater(run, i, k);
    MembersTheorem(run, w.room, i, k);
  }

  // ---------------------------------------------------------------------------
  // Endpoints and sessions
  // ---------------------------------------------------------------------------

  /** No call is between the endpoint table and the registry. */
  predicate Settled(s: State) {
    && (forall t :: t in s.drops ==> !s.drops[t].EndpointGone?)
    && (forall id :: id in s.provisions ==> s.provisions[id] == Establishing)
  }

  /** An endpoint always belongs to a session that is registered or about to be; and between
      calls the two tables hold the same ids exactly when no session lost its endpoint to a
      drop that came before it was registered. */
  lemma EndpointTheorem(run: seq<Action>, n: nat)
    requires Possible(run) && n <= |run|
    ensures var s := At(run, n);
            && (forall id :: id in s.endpoints ==> id in s.bySession || IsPublished(s.provisions, id))
            && (Settled(s) ==> (s.endpoints == s.bySession.Keys <==> s.raced * s.bySession.Keys == {}))
  {
    hide At, IdsInv, ListsInv, DeparturesInv;
    InvAt(run, n);
    var s := At(run, n);
    if Settled(s) {
      assert forall id :: !IsDropping(s.drops, id);
      if s.raced * s.bySession.Keys == {} {
        forall id | id in s.bySession
          ensures id in s.endpoints
        {
          assert id !in s.raced * s.bySession.Keys;
        }
      } else {
        var id :| id in s.raced * s.bySession.Keys;
        assert id !in s.endpoints;
      }
    }
  }

  lemma Extend(run: seq<Action>, a: Action)
    requires Possible(run) && Enabled(After(run), a)
    ensures Possible(run + [a]) && After(run + [a]) == Next(After(run), a)
  {
    hide Next, Enabled;
    assert (run + [a])[..|run|] == run;
  }

  function Home(): Who {
    Who("agent", SpatialRoom("region", 0))
  }

  const S1 := INIT.(provisions := map["a" := Establishing], who := map["a" := Home()])
  const S2 := S1.(endpoints := {"a"}, provisions := map["a" := EndpointAdded])
  const S3 := S2.(drops := map[0 := Dropping("a")])
  const S4 := S3.(endpoints := {}, drops := map[0 := EndpointGone("a")], raced := {"a"})
  const S5 := S4.(drops := map[0 := Nothing("a")])
  const S6 := S5.(byRoom := map[Home().room := ["a"]], provisions := map["a" := ListedInRoom])
  const S7 := S6.(bySession := map["a" := Home()], provisions := map[])

  lemma OrphanSteps()
    ensures Enabled(INIT, BeginProvision("a", Home())) && Next(INIT, BeginProvision("a", Home())) == S1
    ensures Enabled(S1, AddEndpoint("a")) && Next(S1, AddEndpoint("a")) == S2
    ensures Enabled(S2, BeginDrop(0, "a")) && Next(S2, BeginDrop(0, "a")) == S3
    ensures Enabled(S3, DropEndpoint(0)) && Next(S3, DropEndpoint(0)) == S4
    ensures Enabled(S4, TakeSession(0)) && Next(S4, TakeSession(0)) == S5
  {
  }

  lemma OrphanLastSteps()
    ensures Enabled(S5, PushRoom("a")) && Next(S5, PushRoom("a")) == S6
    ensures Enabled(S6, InsertSession("a")) && Next(S6, InsertSession("a")) == S7
  {
    assert ListOf(S5.byRoom, Home().room) + ["a"] == ["a"];
    assert S5.byRoom[Home().room := ["a"]] == map[Home().room := ["a"]];
    assert S5.provisions["a" := ListedInRoom] == map["a" := ListedInRoom];
    assert S6.provisions - {"a"} == map[];
  }

  lemma Continue(run: seq<Action>, s: State, a: Action, s': State) returns (run': seq<Action>)
    requires Possible(run) && After(run) == s && Enabled(s, a) && Next(s, a) == s'
    ensures Possible(run') && After(run') == s'
  {
    hide Next, Enabled;
    Extend(run, a);
    run' := run + [a];
  }

  /** A drop that falls between the two inserts of a provision leaves a registered session
      with no endpoint, and with no call under way. */
  lemma OrphanRun()
    ensures exists run :: Possible(run)
                          && After(run).bySession == map["a" := Home()] && After(run).endpoints == {}
                          && Settled(After(run)) && After(run).provisions == map[]
  {
    hide Next, Enabled, After, Possible;
    OrphanSteps();
    OrphanLastSteps();
    var run := StartOfRun();
    run := Continue(run, INIT, BeginProvision("a", Home()), S1);
    run := Continue(run, S1, AddEndpoint("a"), S2);
    run := Continue(run, S2, BeginDrop(0, "a"), S3);
    run := Continue(run, S3, DropEndpoint(0), S4);
    run := Continue(run, S4, TakeSession(0), S5);
    run := Continue(run, S5, PushRoom("a"), S6);
    run := Continue(run, S6, InsertSession("a"), S7);
    OrphanState();
    assert Possible(run) && After(run) == S7;
  }

  lemma StartOfRun() returns (run: seq<Action>)
    ensures Possible(run) && After(run) == INIT
  {
    run := [];
  }

  lemma OrphanState()
    ensures S7.bySession == map["a" := Home()] && S7.endpoints == {} && Settled(S7) && S7.provisions == map[]
  {
  }

  /** A registered session without an endpoint that no provision is working on. */
  predicate Orphan(s: State, id: string) {
    id in s.bySession && id !in s.endpoints && id !in s.provisions
  }

  lemma ProvisionSparesOrphan(s: State, a: Action, id: string)
    requires Enabled(s, a) && Orphan(s, id) && IsProvisionStep(a) && id in s.who
    ensures Orphan(Next(s, a), id)
  {
    hide Listed, WhoIs;
    match a
    case BeginProvision(x, w) =>
    case EstablishFails(x) =>
    case AddEndpoint(x) =>
    case PushRoom(x) =>
    case InsertSession(x) =>
  }

  lemma DropSparesOrphan(s: State, a: Action, id: string)
    requires Enabled(s, a) && Orphan(s, id) && !IsProvisionStep(a)
    requires !(a.TakeSession? && s.drops[a.t].id == id)
    ensures Orphan(Next(s, a), id)
  {
    hide Live, Retained, ListOf, WhoIs;
    match a
    case BeginDrop(t, x) =>
    case DropEndpoint(t) =>
    case TakeSession(t) =>
    case Delist(t) =>
    case Forget(t) =>
    case ReadIds(t) =>
    case Decide(t) =>
  }

  /** Nothing but a call to drop that very session ever ends it: the reaper goes through the
      endpoints and cannot find it. */
  lemma OrphanStays(s: State, a: Action, id: string)
    requires Enabled(s, a) && IdsInv(s) && Orphan(s, id)
    requires !(a.TakeSession? && s.drops[a.t].id == id)
    ensures Orphan(Next(s, a), id)
  {
    LiveIsKnown(s, id);
    hide Next, IdsInv;
    if IsProvisionStep(a) {
      ProvisionSparesOrphan(s, a, id);
    } else {
      DropSparesOrphan(s, a, id);
    }
  }

  lemma {:induction false} OrphanForever(run: seq<Action>, n: nat, m: nat, id: string)
    requires Possible(run) && n <= m <= |run| && Orphan(At(run, n), id)
    requires forall k: nat :: n <= k < m && run[k].TakeSession? && run[k].t in At(run, k).drops ==>
               At(run, k).drops[run[k].t].id != id
    ensures Orphan(At(run, m), id)
    decreases m
  {
    hide At, Next, IdsInv, ListsInv, EndpointsInv, DeparturesInv, Orphan;
    if n < m {
      OrphanForever(run, n, m - 1, id);
      Step(run, m - 1);
      OrphanStays(At(run, m - 1), run[m - 1], id);
    }
  }

  // ---------------------------------------------------------------------------
  // The session ceiling
  // ---------------------------------------------------------------------------

  /** Registered sessions and provisions that have passed the ceiling check but not yet registered. */
  function Load(s: State): nat {
    |s.bySession| + |s.provisions|
  }

  lemma LoadAfterInsert(s: State, a: Action)
    requires Enabled(s, a) && IdsInv(s) && a.InsertSession?
    ensures Load(Next(s, a)) == Load(s)
  {
    assert a.id !in s.bySession;
    hide IdsAgree;
    OneLess(s.provisions, a.id);
    assert s.bySession[a.id := WhoIs(s, a.id)].Keys == s.bySession.Keys + {a.id};
  }

  lemma LoadAfterTake(s: State, a: Action)
    requires Enabled(s, a) && a.TakeSession?
    ensures Load(Next(s, a)) <= Load(s)
  {
    if s.drops[a.t].id in s.bySession {
      OneLess(s.bySession, s.drops[a.t].id);
    }
  }

  lemma LoadStep(s: State, a: Action)
    requires Enabled(s, a) && IdsInv(s)
    ensures if a.BeginProvision? then |Next(s, a).bySession| == |s.bySession| < MAX_SESSIONS
            else Load(Next(s, a)) <= Load(s)
  {
    hide IdsInv, Live, Listed, Retained, ListOf;
    match a
    case BeginProvision(id, w) =>
    case EstablishFails(id) => OneLess(s.provisions, id);
    case AddEndpoint(id) => Replaced(s.provisions, id, EndpointAdded);
    case PushRoom(id) => Replaced(s.provisions, id, ListedInRoom);
    case InsertSession(id) => LoadAfterInsert(s, a);
    case TakeSession(t) => LoadAfterTake(s, a);
    case _ =>
  }

  lemma OneLess<V>(m: map<string, V>, id: string)
    requires id in m
    ensures |m - {id}| == |m| - 1
  {
    assert (m - {id}).Keys == m.Keys - {id};
  }

  lemma Replaced<V>(m: map<string, V>, id: string, v: V)
    requires id in m
    ensures |m[id := v]| == |m|
  {
    assert m[id := v].Keys == m.Keys;
  }

  /** With never more than `p` provisions past the ceiling check at once, registered sessions and
      those provisions together never exceed 899 + p; with one at a time, 900. */
  lemma {:induction false} CeilingTheorem(run: seq<Action>, n: nat, p: nat)
    requires Possible(run) && n <= |run| && p >= 1
    requires forall i: nat :: i <= n ==> |At(run, i).provisions| <= p
    ensures Load(At(run, n)) <= 899 + p
  {
    hide At, Next, Enabled, IdsInv, ListsInv, EndpointsInv, DeparturesInv;
    if n == 0 {
      NothingDepartedAtStart(run);
    } else {
      CeilingTheorem(run, n - 1, p);
      Step(run, n - 1);
      LoadStep(At(run, n - 1), run[n - 1]);
      assert |At(run, n).provisions| <= p;
    }
  }

  function Name(n: nat): string {
    seq(n, _ => 'x')
  }

  /** A quiet state with `n` sessions registered and `p` provisions past the ceiling check, all under
      the first `n + p` names. */
  ghost predicate Filled(s: State, n: nat, p: nat) {
    && |s.bySession| == n && |s.provisions| == p && s.drops == map[]
    && forall id :: id in s.who || id in s.bySession || id in s.provisions ==> |id| < n + p
  }

  /** One whole provision that nothing disturbs. */
  function Provisioned(s: State, id: string, w: Who): State {
    s.(bySession := s.bySession[id := w], byRoom := Listed(s.byRoom, w.room, id), endpoints := s.endpoints + {id},
       provisions := s.provisions - {id}, who := s.who[id := w])
  }

  lemma ProvisionSteps(s: State, id: string, w: Who)
    requires |s.bySession| < MAX_SESSIONS && id !in s.who && id !in s.provisions && s.drops == map[]
    ensures var s1 := s.(provisions := s.provisions[id := Establishing], who := s.who[id := w]);
            var s2 := s1.(endpoints := s.endpoints + {id}, provisions := s.provisions[id := EndpointAdded]);
            var s3 := s2.(byRoom := Listed(s.byRoom, w.room, id), provisions := s.provisions[id := ListedInRoom]);
            && Enabled(s, BeginProvision(id, w)) && Next(s, BeginProvision(id, w)) == s1
            && Enabled(s1, AddEndpoint(id)) && Next(s1, AddEndpoint(id)) == s2
            && Enabled(s2, PushRoom(id)) && Next(s2, PushRoom(id)) == s3
            && Enabled(s3, InsertSession(id)) && Next(s3, InsertSession(id)) == Provisioned(s, id, w)
  {
    hide Listed;
    assert s.provisions[id := ListedInRoom] - {id} == s.provisions - {id};
    assert s.provisions[id := Establishing][id := EndpointAdded] == s.provisions[id := EndpointAdded];
    assert s.provisions[id := EndpointAdded][id := ListedInRoom] == s.provisions[id := ListedInRoom];
  }

  lemma FillOne(run: seq<Action>, n: nat) returns (run': seq<Action>)
    requires Possible(run) && Filled(After(run), n, 0) && n < MAX_SESSIONS
    ensures Possible(run') && Filled(After(run'), n + 1, 0)
  {
    hide Next, Enabled, Listed, After, Possible;
    var s, id, w := After(run), Name(n), Home();
    ProvisionSteps(s, id, w);
    var s1 := s.(provisions := s.provisions[id := Establishing], who := s.who[id := w]);
    var s2 := s1.(endpoints := s.endpoints + {id}, provisions := s.provisions[id := EndpointAdded]);
    var s3 := s2.(byRoom := Listed(s.byRoom, w.room, id), provisions := s.provisions[id := ListedInRoom]);
    run' := Continue(run, s, BeginProvision(id, w), s1);
    run' := Continue(run', s1, AddEndpoint(id), s2);
    run' := Continue(run', s2, PushRoom(id), s3);
    run' := Continue(run', s3, InsertSession(id), Provisioned(s, id, w));
    FilledMore(s, n, id);
  }

  lemma FilledMore(s: State, n: nat, id: string)
    requires Filled(s, n, 0) && |id| == n
    ensures Filled(Provisioned(s, id, Home()), n + 1, 0)
  {
    hide Listed;
    assert s.provisions - {id} == s.provisions;
    assert id !in s.bySession;
    assert s.bySession[id := Home()].Keys == s.bySession.Keys + {id};
  }

  lemma {:induction false} Fill(n: nat) returns (run: seq<Action>)
    requires n <= MAX_SESSIONS
    ensures Possible(run) && Filled(After(run), n, 0)
  {
    if n == 0 {
      run := [];
    } else {
      run := Fill(n - 1);
      run := FillOne(run, n - 1);
    }
  }

  lemma {:induction false} Crowd(p: nat) returns (run: seq<Action>)
    ensures Possible(run) && Filled(After(run), MAX_SESSIONS - 1, p)
  {
    if p == 0 {
      run := Fill(MAX_SESSIONS - 1);
    } else {
      var before := Crowd(p - 1);
      var id := Name(MAX_SESSIONS - 1 + p - 1);
      Extend(before, BeginProvision(id, Home()));
      run := before + [BeginProvision(id, Home())];
    }
  }

  /** The bound is met: `p` provisions that pass the ceiling check side by side bring the total to
      899 + p. */
  lemma CeilingIsTight(p: nat)
    ensures exists run :: Possible(run) && |After(run).provisions| == p && Load(After(run)) == 899 + p
  {
    var run := Crowd(p);
    hide After, Possible;
    assert Possible(run) && |After(run).provisions| == p && Load(After(run)) == MAX_SESSIONS - 1 + p;
  }
}
