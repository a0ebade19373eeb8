/** `App::provision` and `App::drop_session` (src/main.rs) on the shared registry, one step
    for each lock they take, in any interleaving. */
module LockSteps {
  import opened Wrappers
  import opened Room
  import opened Indices

  const MAX_SESSIONS := 900

  /** What an id stands for. */
  datatype Who = Who(agent: string, room: RoomKey)

  /** How far a provision is, once past the ceiling check. */
  datatype Provision = Establishing | EndpointAdded | ListedInRoom

  /** How far a `drop_session` call is. */
  datatype Drop =
    | Dropping(id: string)
    | EndpointGone(id: string)
    | Taken(id: string)
    | Delisted(id: string)
    | Forgotten(id: string)
    | LeaveRead(id: string, ids: seq<string>)
    | Decided(id: string, broadcast: bool)
    | Nothing(id: string)
  {
    /** The call got the session out of the registry. */
    predicate Holds() {
      !Dropping? && !EndpointGone? && !Nothing?
    }

    predicate Undecided() {
      Holds() && !Decided?
    }
  }

  /** The last four fields are history: what every id drawn so far stands for, which call
      last got an id's session out of the registry, the ids whose endpoint was dropped before
      their session was registered, and the departures announced since the last removal. */
  datatype State = State(
    bySession: map<string, Who>,
    byRoom: RoomIndex,
    endpoints: set<string>,
    provisions: map<string, Provision>,
    drops: map<nat, Drop>,
    who: map<string, Who>,
    taker: map<string, nat>,
    raced: set<string>,
    departed: set<Who>)

  const INIT := State(map[], map[], {}, map[], map[], map[], map[], {}, {})

  datatype Action =
    | BeginProvision(id: string, w: Who)
    | EstablishFails(id: string)
    | AddEndpoint(id: string)
    | PushRoom(id: string)
    | InsertSession(id: string)
    | BeginDrop(t: nat, id: string)
    | DropEndpoint(t: nat)
    | TakeSession(t: nat)
    | Delist(t: nat)
    | Forget(t: nat)
    | ReadIds(t: nat)
    | Decide(t: nat)

  /** Ids are UUIDs: a new one has never been used or spoken of, and nobody can ask for a
      session to be dropped before its endpoint is in the table. */
  predicate Enabled(s: State, a: Action) {
    match a
    case BeginProvision(id, w) =>
      |s.bySession| < MAX_SESSIONS && id !in s.who && forall t :: t in s.drops ==> s.drops[t].id != id
    case EstablishFails(id) => id in s.provisions && s.provisions[id] == Establishing
    case AddEndpoint(id) => id in s.provisions && s.provisions[id] == Establishing
    case PushRoom(id) => id in s.provisions && s.provisions[id] == EndpointAdded
    case InsertSession(id) => id in s.provisions && s.provisions[id] == ListedInRoom
    case BeginDrop(t, id) => t !in s.drops && !(id in s.provisions && s.provisions[id] == Establishing)
    case DropEndpoint(t) => t in s.drops && s.drops[t].Dropping?
    case TakeSession(t) => t in s.drops && s.drops[t].EndpointGone?
    case Delist(t) => t in s.drops && s.drops[t].Taken?
    case Forget(t) => t in s.drops && s.drops[t].Delisted?
    case ReadIds(t) => t in s.drops && s.drops[t].Forgotten?
    case Decide(t) => t in s.drops && s.drops[t].LeaveRead?
  }

  function WhoIs(s: State, id: string): Who {
    if id in s.who then s.who[id] else Who("", SpatialRoom("", 0))
  }

  /** The ids of a list that lead to a session. */
  function Live(ids: seq<string>, bySession: map<string, Who>): (live: seq<string>)
    ensures forall x :: x in live <==> x in ids && x in bySession
  {
    if ids == [] then []
    else
      var before, id := Live(ids[..|ids| - 1], bySession), ids[|ids| - 1];
      if id in bySession then before + [id] else before
  }

  function Next(s: State, a: Action): State
    requires Enabled(s, a)
  {
    match a
    case BeginProvision(id, w) => s.(provisions := s.provisions[id := Establishing], who := s.who[id := w])
    case EstablishFails(id) => s.(provisions := s.provisions - {id})
    case AddEndpoint(id) => s.(endpoints := s.endpoints + {id}, provisions := s.provisions[id := EndpointAdded])
    case PushRoom(id) =>
      s.(byRoom := Listed(s.byRoom, WhoIs(s, id).room, id), provisions := s.provisions[id := ListedInRoom])
    case InsertSession(id) =>
      s.(bySession := s.bySession[id := WhoIs(s, id)], provisions := s.provisions - {id})
    case BeginDrop(t, id) => s.(drops := s.drops[t := Dropping(id)])
    case DropEndpoint(t) =>
      var id := s.drops[t].id;
      s.(endpoints := s.endpoints - {id}, drops := s.drops[t := EndpointGone(id)],
         raced := if id in s.endpoints && id !in s.bySession then s.raced + {id} else s.raced)
    case TakeSession(t) =>
      var id := s.drops[t].id;
      if id !in s.bySession then s.(drops := s.drops[t := Nothing(id)])
      else
        s.(bySession := s.bySession - {id}, drops := s.drops[t := Taken(id)],
           taker := s.taker[id := t], departed := s.departed - {s.bySession[id]})
    case Delist(t) =>
      var id := s.drops[t].id;
      s.(byRoom := Retained(s.byRoom, WhoIs(s, id).room, id), drops := s.drops[t := Delisted(id)])
    case Forget(t) => s.(drops := s.drops[t := Forgotten(s.drops[t].id)])
    case ReadIds(t) =>
      var id := s.drops[t].id;
      s.(drops := s.drops[t := LeaveRead(id, ListOf(s.byRoom, WhoIs(s, id).room))])
    case Decide(t) =>
      var id := s.drops[t].id;
      var remaining := Live(s.drops[t].ids, s.bySession);
      var stillPresent := exists m :: m in remaining && s.bySession[m].agent == WhoIs(s, id).agent;
      s.(drops := s.drops[t := Decided(id, !stillPresent)],
         departed := if stillPresent then s.departed else s.departed + {WhoIs(s, id)})
  }

  predicate Possible(run: seq<Action>)
    decreases |run|, 0
  {
    run == [] || (Possible(run[..|run| - 1]) && Enabled(After(run[..|run| - 1]), run[|run| - 1]))
  }

  function After(run: seq<Action>): State
    requires Possible(run)
    decreases |run|, 1
  {
    if run == [] then INIT else Next(After(run[..|run| - 1]), run[|run| - 1])
  }

  // ---------------------------------------------------------------------------
  // Who holds an id
  // ---------------------------------------------------------------------------

  /** Each id is pending, live or removed; a removed one belongs to the one call that got it,
      and a call that holds a session is the one that got it. */
  ghost predicate IdsAgree(live: map<string, Who>, pending: set<string>, who: map<string, Who>,
                           drops: map<nat, Drop>, taker: map<string, nat>)
  {
    && (forall id :: id in live ==> id in who && live[id] == who[id] && id !in pending && id !in taker)
    && (forall id :: id in pending ==> id in who && id !in taker)
    && (forall id :: id in taker ==>
          id in who && taker[id] in drops && drops[taker[id]].Holds() && drops[taker[id]].id == id)
    && (forall t :: t in drops && drops[t].Holds() ==> drops[t].id in taker && taker[drops[t].id] == t)
  }

  ghost predicate IdsInv(s: State) {
    IdsAgree(s.bySession, s.provisions.Keys, s.who, s.drops, s.taker)
  }

  lemma IdsAfterQuietDrop(live: map<string, Who>, pending: set<string>, who: map<string, Who>,
                          drops: map<nat, Drop>, taker: map<string, nat>, t: nat, d: Drop)
    requires IdsAgree(live, pending, who, drops, taker)
    requires t in drops && d.id == drops[t].id && d.Holds() == drops[t].Holds()
    ensures IdsAgree(live, pending, who, drops[t := d], taker)
  {
  }

  lemma IdsAfterNewDrop(live: map<string, Who>, pending: set<string>, who: map<string, Who>,
                        drops: map<nat, Drop>, taker: map<string, nat>, t: nat, d: Drop)
    requires IdsAgree(live, pending, who, drops, taker)
    requires !d.Holds() && (t in drops ==> !drops[t].Holds())
    ensures IdsAgree(live, pending, who, drops[t := d], taker)
  {
  }

  lemma IdsAfterTake(live: map<string, Who>, pending: set<string>, who: map<string, Who>,
                     drops: map<nat, Drop>, taker: map<string, nat>, t: nat, id: string)
    requires IdsAgree(live, pending, who, drops, taker)
    requires id in live && (t in drops ==> !drops[t].Holds())
    ensures IdsAgree(live - {id}, pending, who, drops[t := Taken(id)], taker[id := t])
  {
  }

  lemma IdsAfterInsert(live: map<string, Who>, pending: set<string>, who: map<string, Who>,
                       drops: map<nat, Drop>, taker: map<string, nat>, id: string)
    requires IdsAgree(live, pending, who, drops, taker) && id in pending
    ensures IdsAgree(live[id := who[id]], pending - {id}, who, drops, taker)
  {
  }

  lemma IdsAfterBegin(live: map<string, Who>, pending: set<string>, who: map<string, Who>,
                      drops: map<nat, Drop>, taker: map<string, nat>, id: string, w: Who)
    requires IdsAgree(live, pending, who, drops, taker) && id !in who
    ensures IdsAgree(live, pending + {id}, who[id := w], drops, taker)
  {
  }

  predicate IsProvisionStep(a: Action) {
    a.BeginProvision? || a.EstablishFails? || a.AddEndpoint? || a.PushRoom? || a.InsertSession?
  }

  /** A drop that moves on and leaves the sessions and provisions alone. */
  predicate IsQuietStep(a: Action) {
    a.DropEndpoint? || a.Delist? || a.Forget? || a.ReadIds? || a.Decide?
  }

  lemma QuietStep(s: State, a: Action)
    requires Enabled(s, a) && IsQuietStep(a)
    ensures var s' := Next(s, a);
            && s'.bySession == s.bySession && s'.provisions == s.provisions && s'.who == s.who && s'.taker == s.taker
            && a.t in s.drops && a.t in s'.drops && s'.drops == s.drops[a.t := s'.drops[a.t]]
            && s'.drops[a.t].id == s.drops[a.t].id && s'.drops[a.t].Holds() == s.drops[a.t].Holds()
  {
    hide Live, Listed, Retained, ListOf;
    match a
    case DropEndpoint(t) =>
    case Delist(t) =>
    case Forget(t) =>
    case ReadIds(t) =>
    case Decide(t) =>
  }

  lemma IdsKeptByProvision(s: State, a: Action)
    requires Enabled(s, a) && IdsInv(s) && IsProvisionStep(a)
    ensures IdsInv(Next(s, a))
  {
    hide IdsAgree, Live, Listed, Retained, ListOf;
    var s' := Next(s, a);
    var live, pending, who, drops, taker := s.bySession, s.provisions.Keys, s.who, s.drops, s.taker;
    if a.BeginProvision? {
      IdsAfterBegin(live, pending, who, drops, taker, a.id, a.w);
      assert s'.provisions.Keys == pending + {a.id};
    } else if a.EstablishFails? {
      FewerPending(live, pending, who, drops, taker, a.id);
      assert s'.provisions.Keys == pending - {a.id};
    } else if a.InsertSession? {
      IdsAfterInsert(live, pending, who, drops, taker, a.id);
      PendingIsKnown(live, pending, who, drops, taker, a.id);
      assert s'.provisions.Keys == pending - {a.id};
    } else {
      assert s'.provisions.Keys == pending;
    }
  }

  lemma IdsKept(s: State, a: Action)
    requires Enabled(s, a) && IdsInv(s)
    ensures IdsInv(Next(s, a))
  {
    hide IdsAgree, Live, Listed, Retained, ListOf;
    var live, pending, who, drops, taker := s.bySession, s.provisions.Keys, s.who, s.drops, s.taker;
    if IsProvisionStep(a) {
      IdsKeptByProvision(s, a);
    } else if IsQuietStep(a) {
      QuietStep(s, a);
      IdsAfterQuietDrop(live, pending, who, drops, taker, a.t, Next(s, a).drops[a.t]);
    } else if a.TakeSession? && drops[a.t].id in live {
      IdsAfterTake(live, pending, who, drops, taker, a.t, drops[a.t].id);
    } else {
      IdsAfterNewDrop(live, pending, who, drops, taker, a.t, Next(s, a).drops[a.t]);
    }
  }

  lemma FewerPending(live: map<string, Who>, pending: set<string>, who: map<string, Who>,
                     drops: map<nat, Drop>, taker: map<string, nat>, id: string)
    requires IdsAgree(live, pending, who, drops, taker)
    ensures IdsAgree(live, pending - {id}, who, drops, taker)
  {
  }

  lemma PendingIsKnown(live: map<string, Who>, pending: set<string>, who: map<string, Who>,
                       drops: map<nat, Drop>, taker: map<string, nat>, id: string)
    requires IdsAgree(live, pending, who, drops, taker) && id in pending
    ensures id in who
  {
  }

  // ---------------------------------------------------------------------------
  // The two indices of the registry
  // ---------------------------------------------------------------------------

  predicate IsListing(s: State, id: string) {
    id in s.provisions && s.provisions[id] == ListedInRoom
  }

  predicate IsDelisting(s: State, id: string) {
    id in s.taker && s.taker[id] in s.drops && s.drops[s.taker[id]] == Taken(id)
  }

  /** The ids that may stand in a room's list: the live sessions, those of inserts that have
      listed but not yet registered, and those of removals that have yet to delist. */
  ghost function Listable(s: State): (ids: set<string>)
    ensures forall id :: id in ids <==> IsListable(s, id)
  {
    s.bySession.Keys + (set id | id in s.provisions && IsListing(s, id))
    + (set id | id in s.taker && IsDelisting(s, id))
  }

  predicate IsListable(s: State, id: string) {
    id in s.bySession || IsListing(s, id) || IsDelisting(s, id)
  }

  ghost function RoomsOf(s: State, ids: set<string>): map<string, RoomKey> {
    map id | id in ids :: WhoIs(s, id).room
  }

  /** Every listable id is listed exactly once, in its own room; no other id is listed; and
      no room list is empty. */
  ghost predicate ListsInv(s: State) {
    Agree(RoomsOf(s, Listable(s)), s.byRoom)
  }

  lemma ListableIsKnown(s: State)
    requires IdsInv(s)
    ensures forall id :: id in Listable(s) ==> id in s.who
  {
  }

  lemma ListableAfterProvision(s: State, a: Action, id: string)
    requires Enabled(s, a) && IdsInv(s) && IsProvisionStep(a)
    ensures IsListable(Next(s, a), id) <==> IsListable(s, id) || (a.PushRoom? && id == a.id)
  {
    assert a.BeginProvision? ==> a.id !in s.provisions;
    hide IdsAgree, Live, Listed, Retained, ListOf;
    match a
    case BeginProvision(x, w) =>
    case EstablishFails(x) =>
    case AddEndpoint(x) =>
    case PushRoom(x) =>
    case InsertSession(x) =>
  }

  lemma ListableAfterQuietDrop(s: State, a: Action, id: string)
    requires Enabled(s, a) && IdsInv(s) && IsQuietStep(a)
    ensures IsListable(Next(s, a), id) <==> IsListable(s, id) && !(a.Delist? && id == s.drops[a.t].id)
  {
    QuietStep(s, a);
    assert a.Delist? <==> s.drops[a.t].Taken?;
    assert !Next(s, a).drops[a.t].Taken?;
    hide Next, Enabled;
  }

  lemma ListableAfterTake(s: State, a: Action, id: string)
    requires Enabled(s, a) && IdsInv(s) && (a.BeginDrop? || a.TakeSession?)
    ensures IsListable(Next(s, a), id) <==> IsListable(s, id)
  {
    hide Live, Listed, Retained, ListOf;
    match a
    case BeginDrop(t, x) =>
    case TakeSession(t) =>
  }

  lemma ListableAfter(s: State, a: Action, id: string)
    requires Enabled(s, a) && IdsInv(s)
    ensures IsListable(Next(s, a), id)
            <==> (a.PushRoom? && id == a.id) || (IsListable(s, id) && !(a.Delist? && id == s.drops[a.t].id))
  {
    hide Next, IsListable, IdsInv;
    if IsProvisionStep(a) {
      ListableAfterProvision(s, a, id);
    } else if IsQuietStep(a) {
      ListableAfterQuietDrop(s, a, id);
    } else {
      ListableAfterTake(s, a, id);
    }
  }

  /** What the step does to the room index. */
  lemma ByRoomAfter(s: State, a: Action)
    requires Enabled(s, a)
    ensures Next(s, a).byRoom ==
            if a.PushRoom? then Listed(s.byRoom, WhoIs(s, a.id).room, a.id)
            else if a.Delist? then Retained(s.byRoom, WhoIs(s, s.drops[a.t].id).room, s.drops[a.t].id)
            else s.byRoom
    ensures forall id :: id in s.who ==> WhoIs(Next(s, a), id) == WhoIs(s, id)
  {
    hide Live, Listed, Retained, ListOf;
    match a
    case BeginProvision(id, w) =>
    case EstablishFails(id) =>
    case AddEndpoint(id) =>
    case PushRoom(id) =>
    case InsertSession(id) =>
    case _ =>
  }

  lemma ListableSetAfter(s: State, a: Action)
    requires Enabled(s, a) && IdsInv(s)
    ensures Listable(Next(s, a)) ==
            if a.PushRoom? then Listable(s) + {a.id}
            else if a.Delist? then Listable(s) - {s.drops[a.t].id}
            else Listable(s)
  {
    hide Next, IdsInv, IsListable;
    forall id
      ensures id in Listable(Next(s, a)) <==>
              (a.PushRoom? && id == a.id) || (id in Listable(s) && !(a.Delist? && id == s.drops[a.t].id))
    {
      ListableAfter(s, a, id);
    }
  }

  lemma RoomsAfter(s: State, a: Action)
    requires Enabled(s, a) && IdsInv(s)
    ensures var rooms, rooms' := RoomsOf(s, Listable(s)), RoomsOf(Next(s, a), Listable(Next(s, a)));
            rooms' == if a.PushRoom? then rooms[a.id := WhoIs(s, a.id).room]
                      else if a.Delist? then rooms - {s.drops[a.t].id}
                      else rooms
  {
    ByRoomAfter(s, a);
    ListableIsKnown(s);
    NotYetListed(s, a);
    ListableSetAfter(s, a);
    hide Next, Listable, IdsInv, WhoIs, Enabled, IsListable;
    var ids := Listable(s);
    SameRooms(s, Next(s, a), ids);
    if a.PushRoom? {
      OneMoreRoom(s, Next(s, a), ids, a.id);
    } else if a.Delist? {
      OneRoomLess(s, Next(s, a), ids, s.drops[a.t].id);
    }
  }

  lemma SameRooms(s: State, s': State, ids: set<string>)
    requires forall id :: id in ids ==> WhoIs(s', id) == WhoIs(s, id)
    ensures RoomsOf(s', ids) == RoomsOf(s, ids)
  {
    hide WhoIs;
  }

  lemma OneMoreRoom(s: State, s': State, ids: set<string>, id: string)
    requires forall x :: x in ids + {id} ==> WhoIs(s', x) == WhoIs(s, x)
    ensures RoomsOf(s', ids + {id}) == RoomsOf(s, ids)[id := WhoIs(s, id).room]
  {
    hide WhoIs;
  }

  lemma OneRoomLess(s: State, s': State, ids: set<string>, id: string)
    requires forall x :: x in ids ==> WhoIs(s', x) == WhoIs(s, x)
    ensures RoomsOf(s', ids - {id}) == RoomsOf(s, ids) - {id}
  {
    hide WhoIs;
  }

  lemma ListsKept(s: State, a: Action)
    requires Enabled(s, a) && IdsInv(s) && ListsInv(s)
    ensures ListsInv(Next(s, a))
  {
    ByRoomAfter(s, a);
    RoomsAfter(s, a);
    NotYetListed(s, a);
    hide Next, Listable, Agree, Listed, Retained, IdsInv, Enabled;
    var rooms := RoomsOf(s, Listable(s));
    if a.PushRoom? {
      InsertAgrees(rooms, s.byRoom, WhoIs(s, a.id).room, a.id);
    } else if a.Delist? {
      RemoveAgrees(rooms, s.byRoom, s.drops[a.t].id);
    }
  }

  lemma NotYetListed(s: State, a: Action)
    requires Enabled(s, a) && IdsInv(s)
    ensures a.PushRoom? ==> a.id !in Listable(s) && a.id in s.who
    ensures a.Delist? ==> s.drops[a.t].id in Listable(s)
  {
    hide Next;
  }

  // ---------------------------------------------------------------------------
  // The endpoint table
  // ---------------------------------------------------------------------------

  ghost predicate IsDropping(drops: map<nat, Drop>, id: string) {
    exists t :: t in drops && drops[t] == EndpointGone(id)
  }

  predicate IsEstablishing(provisions: map<string, Provision>, id: string) {
    id in provisions && provisions[id] == Establishing
  }

  predicate IsPublished(provisions: map<string, Provision>, id: string) {
    id in provisions && provisions[id] != Establishing
  }

  /** Every endpoint belongs to a session that is registered or about to be. A session
      without one is on its way out, unless its endpoint was dropped too early. */
  ghost predicate EndpointsAgree(live: set<string>, endpoints: set<string>, provisions: map<string, Provision>,
                                 drops: map<nat, Drop>, raced: set<string>, known: set<string>)
  {
    && (forall id :: id in endpoints ==> id in live || IsPublished(provisions, id))
    && (forall t :: t in drops ==> !IsEstablishing(provisions, drops[t].id))
    && (forall t :: t in drops && drops[t].EndpointGone? ==> drops[t].id !in endpoints)
    && (forall id :: id in live ==> id in endpoints || id in raced || IsDropping(drops, id))
    && (forall id :: IsPublished(provisions, id) ==> id in endpoints || id in raced)
    && (forall id :: id in raced ==> id !in endpoints && id in known && !IsEstablishing(provisions, id))
  }

  ghost predicate EndpointsInv(s: State) {
    EndpointsAgree(s.bySession.Keys, s.endpoints, s.provisions, s.drops, s.raced, s.who.Keys)
  }

  lemma EndpointsAfterBegin(live: set<string>, endpoints: set<string>, provisions: map<string, Provision>,
                            drops: map<nat, Drop>, raced: set<string>, known: set<string>, id: string)
    requires EndpointsAgree(live, endpoints, provisions, drops, raced, known)
    requires id !in known && id !in provisions && forall t :: t in drops ==> drops[t].id != id
    ensures EndpointsAgree(live, endpoints, provisions[id := Establishing], drops, raced, known + {id})
  {
  }

  lemma EndpointsAfterFail(live: set<string>, endpoints: set<string>, provisions: map<string, Provision>,
                           drops: map<nat, Drop>, raced: set<string>, known: set<string>, id: string)
    requires EndpointsAgree(live, endpoints, provisions, drops, raced, known) && IsEstablishing(provisions, id)
    ensures EndpointsAgree(live, endpoints, provisions - {id}, drops, raced, known)
  {
  }

  lemma EndpointsAfterAdd(live: set<string>, endpoints: set<string>, provisions: map<string, Provision>,
                          drops: map<nat, Drop>, raced: set<string>, known: set<string>, id: string)
    requires EndpointsAgree(live, endpoints, provisions, drops, raced, known) && IsEstablishing(provisions, id)
    ensures EndpointsAgree(live, endpoints + {id}, provisions[id := EndpointAdded], drops, raced, known)
  {
  }

  lemma EndpointsAfterPush(live: set<string>, endpoints: set<string>, provisions: map<string, Provision>,
                           drops: map<nat, Drop>, raced: set<string>, known: set<string>, id: string)
    requires EndpointsAgree(live, endpoints, provisions, drops, raced, known) && IsPublished(provisions, id)
    ensures EndpointsAgree(live, endpoints, provisions[id := ListedInRoom], drops, raced, known)
  {
  }

  lemma EndpointsAfterInsert(live: set<string>, endpoints: set<string>, provisions: map<string, Provision>,
                             drops: map<nat, Drop>, raced: set<string>, known: set<string>, id: string)
    requires EndpointsAgree(live, endpoints, provisions, drops, raced, known) && IsPublished(provisions, id)
    ensures EndpointsAgree(live + {id}, endpoints, provisions - {id}, drops, raced, known)
  {
  }

  /** A call begins, or moves on at any point but around the endpoint table. */
  lemma EndpointsAfterDrop(live: set<string>, endpoints: set<string>, provisions: map<string, Provision>,
                           drops: map<nat, Drop>, raced: set<string>, known: set<string>, t: nat, d: Drop)
    requires EndpointsAgree(live, endpoints, provisions, drops, raced, known)
    requires !d.EndpointGone? && !IsEstablishing(provisions, d.id)
    requires t in drops && drops[t].EndpointGone? ==> drops[t].id !in live
    ensures EndpointsAgree(live, endpoints, provisions, drops[t := d], raced, known)
  {
    forall id | IsDropping(drops, id) && id in live
      ensures IsDropping(drops[t := d], id)
    {
      var u :| u in drops && drops[u] == EndpointGone(id);
      assert u != t;
      assert drops[t := d][u] == EndpointGone(id);
    }
  }

  lemma EndpointsAfterDropEndpoint(live: set<string>, endpoints: set<string>, provisions: map<string, Provision>,
                                   drops: map<nat, Drop>, raced: set<string>, known: set<string>, t: nat)
    requires EndpointsAgree(live, endpoints, provisions, drops, raced, known)
    requires t in drops && drops[t].Dropping?
    requires forall id :: id in provisions ==> id in known && id !in live
    ensures var id := drops[t].id;
            EndpointsAgree(live, endpoints - {id}, provisions, drops[t := EndpointGone(id)],
                           if id in endpoints && id !in live then raced + {id} else raced, known)
  {
    var id := drops[t].id;
    var drops' := drops[t := EndpointGone(id)];
    assert drops'[t] == EndpointGone(id);
    forall x | IsDropping(drops, x)
      ensures IsDropping(drops', x)
    {
      var u :| u in drops && drops[u] == EndpointGone(x);
      assert drops'[u] == EndpointGone(x);
    }
  }

  lemma FewerLive(live: set<string>, endpoints: set<string>, provisions: map<string, Provision>,
                  drops: map<nat, Drop>, raced: set<string>, known: set<string>, t: nat)
    requires EndpointsAgree(live, endpoints, provisions, drops, raced, known)
    requires t in drops && drops[t].EndpointGone?
    ensures EndpointsAgree(live - {drops[t].id}, endpoints, provisions, drops, raced, known)
  {
  }

  lemma EndpointsKeptByBegin(s: State, a: Action)
    requires Enabled(s, a) && IdsInv(s) && EndpointsInv(s) && a.BeginProvision?
    ensures EndpointsInv(Next(s, a))
  {
    assert a.id !in s.provisions;
    hide IdsAgree, EndpointsAgree;
    EndpointsAfterBegin(s.bySession.Keys, s.endpoints, s.provisions, s.drops, s.raced, s.who.Keys, a.id);
    assert s.who[a.id := a.w].Keys == s.who.Keys + {a.id};
  }

  lemma EndpointsKeptByInsert(s: State, a: Action)
    requires Enabled(s, a) && EndpointsInv(s) && a.InsertSession?
    ensures EndpointsInv(Next(s, a))
  {
    hide EndpointsAgree, WhoIs;
    EndpointsAfterInsert(s.bySession.Keys, s.endpoints, s.provisions, s.drops, s.raced, s.who.Keys, a.id);
    assert s.bySession[a.id := WhoIs(s, a.id)].Keys == s.bySession.Keys + {a.id};
  }

  lemma EndpointsKeptByProvision(s: State, a: Action)
    requires Enabled(s, a) && IdsInv(s) && EndpointsInv(s) && IsProvisionStep(a)
    ensures EndpointsInv(Next(s, a))
  {
    var live, endpoints, provisions, drops, raced, known :=
      s.bySession.Keys, s.endpoints, s.provisions, s.drops, s.raced, s.who.Keys;
    hide IdsInv, EndpointsAgree, Live, Listed, Retained, ListOf;
    match a
    case BeginProvision(id, w) => EndpointsKeptByBegin(s, a);
    case EstablishFails(id) => EndpointsAfterFail(live, endpoints, provisions, drops, raced, known, id);
    case AddEndpoint(id) => EndpointsAfterAdd(live, endpoints, provisions, drops, raced, known, id);
    case PushRoom(id) => EndpointsAfterPush(live, endpoints, provisions, drops, raced, known, id);
    case InsertSession(id) => EndpointsKeptByInsert(s, a);
  }

  lemma EndpointsKeptByQuietDrop(s: State, a: Action)
    requires Enabled(s, a) && IdsInv(s) && EndpointsInv(s) && IsQuietStep(a)
    ensures EndpointsInv(Next(s, a))
  {
    QuietStep(s, a);
    var live, endpoints, provisions, drops, raced, known :=
      s.bySession.Keys, s.endpoints, s.provisions, s.drops, s.raced, s.who.Keys;
    assert forall id :: id in provisions ==> id in known && id !in live;
    assert !IsEstablishing(provisions, drops[a.t].id);
    hide IdsAgree, EndpointsAgree, Live, Listed, Retained, ListOf;
    if a.DropEndpoint? {
      EndpointsAfterDropEndpoint(live, endpoints, provisions, drops, raced, known, a.t);
    } else {
      QuietEndpoints(s, a);
      hide Next;
      EndpointsAfterDrop(live, endpoints, provisions, drops, raced, known, a.t, Next(s, a).drops[a.t]);
    }
  }

  lemma QuietEndpoints(s: State, a: Action)
    requires Enabled(s, a) && IsQuietStep(a) && !a.DropEndpoint?
    ensures Next(s, a).endpoints == s.endpoints && Next(s, a).raced == s.raced
    ensures a.t in s.drops && s.drops[a.t].Holds()
    ensures a.t in Next(s, a).drops && !Next(s, a).drops[a.t].EndpointGone?
  {
    hide Live, Listed, Retained, ListOf;
    match a
    case Delist(t) =>
    case Forget(t) =>
    case ReadIds(t) =>
    case Decide(t) =>
  }

  lemma EndpointsKept(s: State, a: Action)
    requires Enabled(s, a) && IdsInv(s) && EndpointsInv(s)
    ensures EndpointsInv(Next(s, a))
  {
    var live, endpoints, provisions, drops, raced, known :=
      s.bySession.Keys, s.endpoints, s.provisions, s.drops, s.raced, s.who.Keys;
    if IsProvisionStep(a) {
      EndpointsKeptByProvision(s, a);
    } else if IsQuietStep(a) {
      EndpointsKeptByQuietDrop(s, a);
    } else {
      assert a.TakeSession? ==> !IsEstablishing(provisions, drops[a.t].id);
      hide IdsAgree, EndpointsAgree, Live, Listed, Retained, ListOf;
      if a.BeginDrop? {
        EndpointsAfterDrop(live, endpoints, provisions, drops, raced, known, a.t, Dropping(a.id));
      } else {
        FewerLive(live, endpoints, provisions, drops, raced, known, a.t);
        assert Next(s, a).bySession.Keys == live - {drops[a.t].id};
        EndpointsAfterDrop(live - {drops[a.t].id}, endpoints, provisions, drops, raced, known, a.t,
                           Next(s, a).drops[a.t]);
      }
    }
  }

  // ---------------------------------------------------------------------------
  // Departures
  // ---------------------------------------------------------------------------

  ghost predicate Present(live: map<string, Who>, w: Who) {
    exists id :: id in live && live[id] == w
  }

  /** A session of that agent in that room has been removed by a call that has not yet
      decided whether to tell the room. */
  ghost predicate Handled(who: map<string, Who>, drops: map<nat, Drop>, taker: map<string, nat>, w: Who) {
    exists id :: IsHandling(who, drops, taker, id, w)
  }

  predicate IsHandling(who: map<string, Who>, drops: map<nat, Drop>, taker: map<string, nat>, id: string, w: Who) {
    id in taker && taker[id] in drops && drops[taker[id]].Undecided() && id in who && who[id] == w
  }

  /** Whoever has lost a session is still there through another one, is being dealt with, or
      has been announced as gone since. */
  ghost predicate DeparturesAgree(live: map<string, Who>, who: map<string, Who>, drops: map<nat, Drop>,
                                  taker: map<string, nat>, departed: set<Who>)
  {
    && (forall t, id :: t in drops && drops[t].LeaveRead? && id in drops[t].ids ==>
          id in who && drops[t].id in who && who[id].room == who[drops[t].id].room)
    && (forall id :: id in taker && id in who ==>
          who[id] in departed || Present(live, who[id]) || Handled(who, drops, taker, who[id]))
  }

  ghost predicate DeparturesInv(s: State) {
    DeparturesAgree(s.bySession, s.who, s.drops, s.taker, s.departed)
  }

  lemma DeparturesAfterBegin(live: map<string, Who>, who: map<string, Who>, drops: map<nat, Drop>,
                             taker: map<string, nat>, departed: set<Who>, id: string, w: Who)
    requires DeparturesAgree(live, who, drops, taker, departed) && id !in who && id !in taker
    ensures DeparturesAgree(live, who[id := w], drops, taker, departed)
  {
    forall x | x in taker && x in who && Handled(who, drops, taker, who[x])
      ensures Handled(who[id := w], drops, taker, who[x])
    {
      var y :| IsHandling(who, drops, taker, y, who[x]);
      assert IsHandling(who[id := w], drops, taker, y, who[x]);
    }
  }

  lemma DeparturesAfterInsert(live: map<string, Who>, who: map<string, Who>, drops: map<nat, Drop>,
                              taker: map<string, nat>, departed: set<Who>, id: string, w: Who)
    requires DeparturesAgree(live, who, drops, taker, departed) && id !in live
    ensures DeparturesAgree(live[id := w], who, drops, taker, departed)
  {
    forall v | Present(live, v)
      ensures Present(live[id := w], v)
    {
      var x :| x in live && live[x] == v;
      assert live[id := w][x] == v;
    }
  }

  /** A call moves on without deciding. */
  lemma DeparturesAfterQuiet(live: map<string, Who>, who: map<string, Who>, drops: map<nat, Drop>,
                             taker: map<string, nat>, departed: set<Who>, t: nat, d: Drop)
    requires DeparturesAgree(live, who, drops, taker, departed)
    requires t in drops ==> (drops[t].Undecided() ==> d.Undecided())
    requires d.LeaveRead? ==> d.id in who && forall x :: x in d.ids ==> x in who && who[x].room == who[d.id].room
    ensures DeparturesAgree(live, who, drops[t := d], taker, departed)
  {
    forall w | Handled(who, drops, taker, w)
      ensures Handled(who, drops[t := d], taker, w)
    {
      var y :| IsHandling(who, drops, taker, y, w);
      assert IsHandling(who, drops[t := d], taker, y, w);
    }
  }

  lemma DeparturesAfterTake(live: map<string, Who>, who: map<string, Who>, drops: map<nat, Drop>,
                            taker: map<string, nat>, departed: set<Who>, t: nat, id: string)
    requires DeparturesAgree(live, who, drops, taker, departed)
    requires id in live && id in who && live[id] == who[id] && id !in taker
    requires t in drops && !drops[t].Holds()
    ensures DeparturesAgree(live - {id}, who, drops[t := Taken(id)], taker[id := t], departed - {live[id]})
  {
    var live', drops', taker' := live - {id}, drops[t := Taken(id)], taker[id := t];
    assert IsHandling(who, drops', taker', id, who[id]);
    forall w | Handled(who, drops, taker, w)
      ensures Handled(who, drops', taker', w)
    {
      var y :| IsHandling(who, drops, taker, y, w);
      assert IsHandling(who, drops', taker', y, w);
    }
    forall w | Present(live, w) && w != live[id]
      ensures Present(live', w)
    {
      var x :| x in live && live[x] == w;
      assert x in live' && live'[x] == w;
    }
  }

  lemma DeparturesAfterDecision(live: map<string, Who>, who: map<string, Who>, drops: map<nat, Drop>,
                                taker: map<string, nat>, departed: set<Who>, t: nat, present: bool)
    requires DeparturesAgree(live, who, drops, taker, departed)
    requires forall id :: id in live ==> id in who && live[id] == who[id]
    requires forall id :: id in taker && taker[id] in drops ==> drops[taker[id]].id == id
    requires t in drops && drops[t].LeaveRead? && drops[t].id in who
    requires present <==> exists m :: m in Live(drops[t].ids, live) && live[m].agent == who[drops[t].id].agent
    ensures DeparturesAgree(live, who, drops[t := Decided(drops[t].id, !present)], taker,
                            if present then departed else departed + {who[drops[t].id]})
  {
    var w := who[drops[t].id];
    var drops' := drops[t := Decided(drops[t].id, !present)];
    if present {
      var m :| m in Live(drops[t].ids, live) && live[m].agent == w.agent;
      assert live[m] == w;
      assert Present(live, w);
    }
    forall v | Handled(who, drops, taker, v) && v != w
      ensures Handled(who, drops', taker, v)
    {
      var y :| IsHandling(who, drops, taker, y, v);
      assert IsHandling(who, drops', taker, y, v);
    }
  }

  lemma RoomListIsKnown(s: State, room: RoomKey)
    requires IdsInv(s) && ListsInv(s)
    ensures forall id :: id in ListOf(s.byRoom, room) ==> id in s.who && s.who[id].room == room
    ensures Distinct(ListOf(s.byRoom, room))
  {
    ListableIsKnown(s);
    var rooms := RoomsOf(s, Listable(s));
    hide Listable, IdsAgree;
    assert forall id :: id in ListOf(s.byRoom, room) ==> id in rooms && rooms[id] == room;
  }

  lemma DeparturesKeptByProvision(s: State, a: Action)
    requires Enabled(s, a) && IdsInv(s) && DeparturesInv(s) && IsProvisionStep(a)
    ensures DeparturesInv(Next(s, a))
  {
    assert a.BeginProvision? ==> a.id !in s.taker;
    assert a.InsertSession? ==> a.id !in s.bySession;
    hide IdsAgree, DeparturesAgree, Live, Listed, Retained, ListOf;
    match a
    case BeginProvision(id, w) => DeparturesAfterBegin(s.bySession, s.who, s.drops, s.taker, s.departed, id, w);
    case EstablishFails(id) =>
    case AddEndpoint(id) =>
    case PushRoom(id) =>
    case InsertSession(id) => DeparturesAfterInsert(s.bySession, s.who, s.drops, s.taker, s.departed, id, WhoIs(s, id));
  }

  lemma DeparturesKeptByQuietDrop(s: State, a: Action)
    requires Enabled(s, a) && IdsInv(s) && ListsInv(s) && DeparturesInv(s) && IsQuietStep(a) && !a.Decide?
    ensures DeparturesInv(Next(s, a))
  {
    assert s.drops[a.t].Holds() ==> s.drops[a.t].id in s.who;
    RoomListIsKnown(s, WhoIs(s, s.drops[a.t].id).room);
    hide IdsAgree, ListsInv, DeparturesAgree, Live, Listed, Retained, ListOf;
    match a
    case DropEndpoint(t) =>
      DeparturesAfterQuiet(s.bySession, s.who, s.drops, s.taker, s.departed, t, EndpointGone(s.drops[t].id));
    case Delist(t) =>
      DeparturesAfterQuiet(s.bySession, s.who, s.drops, s.taker, s.departed, t, Delisted(s.drops[t].id));
    case Forget(t) =>
      DeparturesAfterQuiet(s.bySession, s.who, s.drops, s.taker, s.departed, t, Forgotten(s.drops[t].id));
    case ReadIds(t) =>
      var id := s.drops[t].id;
      DeparturesAfterQuiet(s.bySession, s.who, s.drops, s.taker, s.departed, t,
                           LeaveRead(id, ListOf(s.byRoom, WhoIs(s, id).room)));
  }

  lemma DeparturesKeptByDecide(s: State, a: Action)
    requires Enabled(s, a) && IdsInv(s) && DeparturesInv(s) && a.Decide?
    ensures DeparturesInv(Next(s, a))
  {
    var live, who, drops, taker, departed := s.bySession, s.who, s.drops, s.taker, s.departed;
    assert drops[a.t].id in who;
    assert forall id :: id in live ==> id in who && live[id] == who[id];
    assert forall id :: id in taker && taker[id] in drops ==> drops[taker[id]].id == id;
    hide IdsAgree, DeparturesAgree, Live;
    var present := exists m :: m in Live(drops[a.t].ids, live) && live[m].agent == who[drops[a.t].id].agent;
    DeparturesAfterDecision(live, who, drops, taker, departed, a.t, present);
  }

  lemma DeparturesKeptByTake(s: State, a: Action)
    requires Enabled(s, a) && IdsInv(s) && DeparturesInv(s) && a.TakeSession?
    ensures DeparturesInv(Next(s, a))
  {
    var live, who, drops, taker, departed := s.bySession, s.who, s.drops, s.taker, s.departed;
    var id := drops[a.t].id;
    assert id in live ==> id in who && live[id] == who[id] && id !in taker;
    hide IdsAgree, DeparturesAgree;
    if id in live {
      DeparturesAfterTake(live, who, drops, taker, departed, a.t, id);
    } else {
      DeparturesAfterQuiet(live, who, drops, taker, departed, a.t, Nothing(id));
    }
  }

  lemma DeparturesKept(s: State, a: Action)
    requires Enabled(s, a) && IdsInv(s) && ListsInv(s) && DeparturesInv(s)
    ensures DeparturesInv(Next(s, a))
  {
    hide IdsInv, ListsInv, DeparturesAgree;
    if IsProvisionStep(a) {
      DeparturesKeptByProvision(s, a);
    } else if IsQuietStep(a) && !a.Decide? {
      DeparturesKeptByQuietDrop(s, a);
    } else if a.Decide? {
      DeparturesKeptByDecide(s, a);
    } else if a.TakeSession? {
      DeparturesKeptByTake(s, a);
    } else {
      DeparturesAfterQuiet(s.bySession, s.who, s.drops, s.taker, s.departed, a.t, Dropping(a.id));
    }
  }

  // ---------------------------------------------------------------------------
  // Every run
  // ---------------------------------------------------------------------------

  ghost predicate Inv(s: State) {
    IdsInv(s) && ListsInv(s) && EndpointsInv(s) && DeparturesInv(s)
  }

  lemma {:induction false} InvHolds(run: seq<Action>)
    requires Possible(run)
    ensures Inv(After(run))
  {
    hide IdsInv, ListsInv, EndpointsInv, DeparturesInv, Next, Enabled;
    if run == [] {
      InvAtStart();
    } else {
      var before, a := run[..|run| - 1], run[|run| - 1];
      InvHolds(before);
      IdsKept(After(before), a);
      ListsKept(After(before), a);
      EndpointsKept(After(before), a);
      DeparturesKept(After(before), a);
    }
  }

  /** An id keeps its meaning, and a session that has left never comes back. */
  lemma StepIsMonotone(s: State, a: Action)
    requires Enabled(s, a) && IdsInv(s)
    ensures var s' := Next(s, a);
            && (forall id :: id in s.who ==> id in s'.who && s'.who[id] == s.who[id])
            && s.taker.Keys <= s'.taker.Keys
            && (forall id :: id in s.bySession && id !in s'.bySession ==> id in s'.taker)
  {
    assert a.BeginProvision? ==> a.id !in s.who;
    hide IdsInv, Live, Listed, Retained, ListOf, WhoIs;
    match a
    case BeginProvision(id, w) =>
    case EstablishFails(id) =>
    case AddEndpoint(id) =>
    case PushRoom(id) =>
    case InsertSession(id) =>
    case BeginDrop(t, id) =>
    case DropEndpoint(t) =>
    case TakeSession(t) =>
    case Delist(t) =>
    case Forget(t) =>
    case ReadIds(t) =>
    case Decide(t) =>
  }

  /** A call that is about to decide stays as it is until it does. */
  lemma PendingDecisionStays(s: State, a: Action, t: nat)
    requires Enabled(s, a) && t in s.drops && (s.drops[t].LeaveRead? || s.drops[t].Decided?)
    ensures t in Next(s, a).drops
    ensures Next(s, a).drops[t] == s.drops[t] || (a == Decide(t) && Next(s, a).drops[t].Decided?)
  {
    hide Live, Listed, Retained, ListOf;
    match a
    case DropEndpoint(u) =>
    case Decide(u) =>
    case _ =>
  }

  /** The step takes a session of `w` out of the registry. */
  predicate Removal(s: State, a: Action, w: Who) {
    && a.TakeSession? && a.t in s.drops
    && s.drops[a.t].id in s.bySession && s.bySession[s.drops[a.t].id] == w
  }

  /** The step decides to tell the room that `w` has left. */
  predicate Announcement(s: State, a: Action, w: Who) {
    && a.Decide? && a.t in s.drops && s.drops[a.t].LeaveRead? && WhoIs(s, s.drops[a.t].id) == w
    && forall m :: m in Live(s.drops[a.t].ids, s.bySession) ==> s.bySession[m].agent != w.agent
  }

  lemma DepartedStep(s: State, a: Action, w: Who)
    requires Enabled(s, a)
    ensures w in Next(s, a).departed <==> Announcement(s, a, w) || (w in s.departed && !Removal(s, a, w))
    ensures Announcement(s, a, w) ==> a.t in Next(s, a).drops && Next(s, a).drops[a.t] == Decided(s.drops[a.t].id, true)
  {
    hide Listed, Retained, ListOf;
    match a
    case TakeSession(t) =>
    case Decide(t) =>
    case _ =>
  }

  lemma RemovalIsRecorded(s: State, a: Action, w: Who)
    requires Enabled(s, a) && IdsInv(s) && Removal(s, a, w)
    ensures var id := s.drops[a.t].id;
            id in Next(s, a).taker && id in Next(s, a).who && Next(s, a).who[id] == w
  {
  }

  lemma ReadStep(s: State, t: nat)
    requires Enabled(s, ReadIds(t)) && IdsInv(s)
    ensures s.drops[t].id in s.who && t in Next(s, ReadIds(t)).drops
    ensures Next(s, ReadIds(t)).drops[t] == LeaveRead(s.drops[t].id, ListOf(s.byRoom, s.who[s.drops[t].id].room))
  {
  }

  lemma LiveIsKnown(s: State, id: string)
    requires IdsInv(s) && id in s.bySession
    ensures id in s.who && s.who[id] == s.bySession[id] && id !in s.taker
  {
  }

  lemma TakerHolds(s: State, id: string)
    requires IdsInv(s)
    ensures id in s.taker ==> s.taker[id] in s.drops && s.drops[s.taker[id]].Holds() && s.drops[s.taker[id]].id == id
    ensures forall t :: t in s.drops && s.drops[t].Holds() && s.drops[t].id == id ==> id in s.taker && s.taker[id] == t
  {
  }

  lemma DepartureIsSettled(s: State, id: string)
    requires IdsInv(s) && DeparturesInv(s) && id in s.taker
    ensures id in s.who
    ensures s.who[id] in s.departed || Present(s.bySession, s.who[id]) || Handled(s.who, s.drops, s.taker, s.who[id])
  {
  }

  lemma InvAtStart()
    ensures Inv(INIT)
  {
    assert Listable(INIT) == {};
  }
}
