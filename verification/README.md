# A verified model of the WolfVoice core

WolfVoice is a voice server for a virtual world. Viewers provision a session
over JSON-RPC, talk to it over a data channel, and get, every 20 ms, their own
stereo mix of everybody else in their room. This project models the parts of
it where state, concurrency or arithmetic is hard, and proves what those parts
are for. `dafny verify dfyconfig.toml` checks everything.

## How the model is laid out

- **The room engine as objects.** `room.dfy` (`Session`: control state, frame
  queue, announcements), `registry.dfy` (`Registry`: the two indices),
  `mixroom.dfy` (`mix_room` and `build_roster` as nested loops over live
  sessions), `app.dfy` (`App`: provisioning, dropping a session, the reaper),
  `rtp.dfy`, `ports.dfy`, `jitter.dfy` and `proto.dfy` (the endpoint's clock,
  the port counter, the packet splitter, the messages). Each method is tied to a
  specification function on values; `mixlaws.dfy`, `roster.dfy`, `volume.dfy` and the lemmas
  beside the classes prove what those functions promise.
- **The same engine as step systems.** `locksteps.dfy` and `lockresults.dfy`
  take `provision` and `drop_session` apart into one step per lock and allow any
  interleaving of any number of calls. `mixerloop.dfy` does the same for the
  tick, its room tasks and its listener tasks. `announce.dfy` takes arrivals,
  departures, a tick's reading of a room's list and its work on that list as whole
  steps, and folds every roster and notice into what a viewer shows.
- **The geometry.** `mixer.dfy` and `spatial.dfy`: the tether, the quaternion
  rotation, panning, distance gain and the speech level.
- **The calendar.** `calendar.dfy` and `timestamp.dfy`: the closed-form date of
  the log's time stamps and the text made from it.
- **The browser client.** `client_xml.dfy`, and the sending half of `volume.dfy`.

## What is assumed

- Floating point is exact real arithmetic; NaN, infinities and rounding do not
  exist, and the filter against non-finite positions is therefore not modelled.
  `RealMath.Libm` is any square root, sine, cosine and hyperbolic tangent that
  obey `Laws()`: the root squares back, sine and cosine are a unit pair a
  quarter turn apart, sine rises over the first quarter turn, and the tangent
  stays inside (-1, 1).
- Session ids are fresh UUIDs. The RTP clock's random start is a parameter.
- A lock makes what it protects atomic. `mix_room` sees one state of a session
  for the whole tick; a control message arriving half way through is not
  modelled, nor are poisoned locks and panics.
- What Opus, ICE, DTLS and the data channel do is a parameter: a frame encodes
  or does not, a packet is taken or not, a transport comes up or does not.
- JSON starts as a parsed tree, in which the keys of one object are distinct.

## Where the code and its comments part

Each of these is a theorem about the code as it is.

- **The session ceiling does not protect ports** (src/main.rs:73-78).
  `Ports.WindowTheorem` gives the exact number of consecutive allocations that
  are free of repeats. For the production range it is 536, not 1000, because the
  16-bit counter wraps out of step with the range; so two of 900 sessions
  provisioned in a row can share a port (`Ports.CeilingDoesNotProtectPorts`).
- **The ceiling itself is soft** (src/main.rs:162-168). With `p` provisions past
  the check at once, the total reaches 899 + p and no more
  (`LockResults.CeilingTheorem`, `CeilingIsTight`). Served one at a time, it is
  exact (`Service.App.Provision`).
- **A session can lose its endpoint for good** (src/main.rs:215-216). A drop that
  falls between the two inserts leaves a registered session without an endpoint
  (`LockResults.OrphanRun`). The reaper goes through the endpoints, so only a
  call to drop that very id can still end it (`LockResults.OrphanStays`,
  `OrphanForever`); and `LockResults.EndpointTheorem` says that this race is the
  only way into that state.
- **A join can be lost.** A tick marks its agents as announced before it knows
  whether the roster can be sent (src/main.rs:352, src/room.rs:388), and a roster
  keeps only the last entry of an agent (src/proto.rs:440), so that a second
  session that speaks hides the join of the first. `Announce.TickTells` says
  exactly when a join arrives, and `Announce.JoinIsNowOrNever` that one which does
  not is never made good while the sessions last. A viewer whose channel opens
  only after its first tick is never told who was there
  (`Announce.NewcomerIsNeverTold`). `Announce.ClosedChannelRun` and
  `Announce.MaskedJoinRun` are runs in which the two things happen.
- **A departed agent can come back.** A room's list is read before the tick works
  on it (src/main.rs:319, src/main.rs:341). If an agent leaves in between, the
  viewers are shown the departed (`Announce.StaleTickRevivesTheDeparted` is such a
  run; `Announce.DepartedStayGone` is the exact condition).
- **A huge volume is heard as silence.** The raw volume is cut to 32 bits
  (src/proto.rs:369), so 2^32/220 asks for the maximum and arrives as zero
  (`Volume.HugeVolumeWraps`; `Volume.VolumeEndToEnd` has the exact condition).
- **Time stamps sort up to the last second of 9999 and no further**
  (`Timestamp.SortingLimit`; `Timestamp.FifthDigitBreaksOrder` is the first pair
  that does not).

## Model

| member | source | states |
|---|---|---|
| Calendar.UnsignedRanges | src/logctl.rs:178-185 | for every day number no unsigned subtraction underflows, and day of era, year of era, day of year and month index stay in 0..146096, 0..399, 0..365 and 0..11 |
| Calendar.CivilIsValid | src/logctl.rs:177-186 | the formula always names a day that exists in the Gregorian calendar |
| Calendar.DaysOfCivil | src/logctl.rs:177-186 | counting the days to the formula's answer gives the day number back |
| Calendar.CivilOfDays | src/logctl.rs:177-186 | every existing date is the formula's answer for its own day number |
| Calendar.CivilSuccessor | src/logctl.rs:177-186 | the answer for day z + 1 is the calendar successor of the answer for day z |
| Calendar.CivilRefinesDayByDay | src/logctl.rs:177-186 | the closed form equals counting one day at a time from 1970-01-01, in both directions |
| Calendar.CivilIsMonotone | src/logctl.rs:177-186 | dates compare like day numbers |
| Calendar.YearOfEraOfParts | src/logctl.rs:180 | the year of the era for every way to write a day as century, four-year cycle, year and rest, including the leap day that closes the era |
| Timestamp.LosesNothing | src/logctl.rs:171-186 | date and time fields recombine to the millisecond count they came from |
| Timestamp.FourDigitSeconds | src/logctl.rs:171-186 | the year has four digits exactly from second -62167219200 up to second 253402300800 |
| Timestamp.TextReadsBack | src/logctl.rs:188 | the printed text has 24 columns and reading them by position gives the fields back (RFC 3339, section 5.6) |
| Timestamp.TimestampIsLaidOut | src/logctl.rs:188 | for every reading of the years 0000 to 9999: 24 columns, the dashes, the T, the colons, the point and the Z in their places, and digits everywhere else (RFC 3339, section 5.6) |
| Timestamp.YearReadsBack | src/logctl.rs:188 | any year at all reads back, in at least four columns of which a sign takes one |
| Timestamp.TimestampReadsBack | src/logctl.rs:167-188 | from the clock to the text and back loses nothing down to the millisecond in the years 0000 to 9999 |
| Timestamp.TimestampsSort | src/logctl.rs:167-188 | in those years lexicographic order of the texts is chronological order (RFC 3339, section 5.1) |
| Timestamp.SortingLimit | src/logctl.rs:188 | for every bound, all readings from the year 0 up to it sort chronologically if and only if it is at most the first second of the year 10000 |
| Timestamp.FifthDigitBreaksOrder | src/logctl.rs:188 | the first instant of the year 10000 sorts before the last second of 9999 |
| Ports.PortPool.Take | src/session.rs:77-81 | the port stays in the range and is the one the wrapping 16-bit counter selects |
| Ports.PortsAscend | src/session.rs:77-81 | the first port is the lowest of the range and ports ascend one by one, starting over after the highest and whenever the counter wraps |
| Ports.PortReturnsAfterGap | src/session.rs:77-81 | a port comes round again after exactly span, 65536 mod span or their sum calls, and never in between, over unbounded calls |
| Ports.GapAcrossWrap | src/session.rs:77-81 | the distance when the counter wraps in between |
| Ports.ProductionGaps | src/main.rs:53-54 | for 40000-40999 the distance is always 1000, 536 or 1536 |
| Ports.WindowTheorem | src/session.rs:77-81 | any w consecutive calls hand out different ports, from everywhere, if and only if w is at most 65536 mod span (or span where that is 0) |
| Ports.CeilingDoesNotProtectPorts | src/main.rs:73-78 | 900 consecutive provisions can repeat a port; 536 cannot |
| Ports.FullCycle | src/session.rs:77-81 | before the first wrap span consecutive calls are a permutation of the range |
| Rtp.Endpoint.SendMix | src/session.rs:99-131 | a failed encoding leaves the clock alone, a failed write does not; the k-th encoded frame carries start + 960k mod 2^32 |
| Rtp.StampsRepeat | src/session.rs:110-116 | two frames share a stamp exactly when a multiple of 2^26 frames lies between them (RFC 3550, section 5.1; RFC 7587, section 4.1) |
| Rtp.NextStamp | src/session.rs:110-116 | the stamps begin at the start value and advance by 960 modulo 2^32 |
| ClientXml.XmlIsSimultaneous | client/voice_llwebrtc.js:129-136 | the five chained global replaces equal one simultaneous escape, for every string |
| ClientXml.XmlIsWellEscaped | client/voice_llwebrtc.js:129-136 | no raw markup character is left and every ampersand starts one of the five entities |
| ClientXml.XmlReadsBack | client/voice_llwebrtc.js:129-136 | decoding the entities gives every string back (XML 1.0, section 4.6) |
| Spatial.TetherInBall | src/mixer.rs:68-84 | the tethered ear is within 50 m of the avatar |
| Spatial.TetherInside | src/mixer.rs:76-78 | an ear already inside stays where it is |
| Spatial.TetherObtuse | src/mixer.rs:68-84 | from the tethered ear no point of the ball lies on the side of the claimed ear |
| Spatial.TetherIsNearest | src/mixer.rs:68-84 | the tethered ear is the nearest point of the ball: any other is farther by at least the square of its distance to it |
| Spatial.TetherIsIdempotent | src/mixer.rs:68-84 | tethering twice is tethering once |
| Spatial.TetherIsNonexpansive | src/mixer.rs:68-84 | two claimed ears are never moved apart |
| Spatial.RotatedLength | src/mixer.rs:91-103 | for every quaternion, the squared length changes by exactly 4 times the square of u x v times (q squared - 1) |
| Spatial.RotationIsLinear | src/mixer.rs:91-103 | the rotation is linear |
| Spatial.RotateBack | src/mixer.rs:91-103 | what rotating by the conjugate afterwards leaves, for every quaternion |
| Spatial.UnitRotation | src/mixer.rs:91-103 | for a unit quaternion it is an isometry that the conjugate undoes |
| Spatial.RotationIsSandwich | src/mixer.rs:86-103 | the expanded formula is conjugate times vector times quaternion in quaternion algebra, exactly for unit length and up to (q squared - 1) v otherwise |
| Spatial.LateralInRange | src/mixer.rs:112-125 | the lateral component is in [-1, 1] by itself: the clamp never acts |
| Spatial.PanIsConstantPower | src/mixer.rs:112-125 | the squared weights sum to one and neither is negative |
| Spatial.PanFollowsTheSide | src/mixer.rs:112-125 | the right weight is the larger one if and only if the speaker is to the right in the listener's frame and not within a micrometre of its axis, and the weights are equal if and only if the speaker is straight ahead, straight behind or that close to the axis |
| Spatial.LateralIsSine | src/mixer.rs:112-120 | off the axis the lateral component is the sine of the direction: squared and multiplied by the squared horizontal distance it is the squared sideways offset, and its sign is the side |
| Spatial.PanHardOver | src/mixer.rs:112-125 | a speaker due right is heard on the right alone, one due left on the left alone |
| Spatial.PanMirror | src/mixer.rs:112-125 | two people facing the same way hear each other with left and right swapped |
| Spatial.DistanceGainFalls | src/mixer.rs:54-62 | the gain never rises with distance, is 1 exactly up to 10 m and 0 exactly from 60 m |
| Spatial.DistanceGainIsLinear | src/mixer.rs:54-62 | between 10 m and 60 m the gain falls by one fiftieth a metre, from 1 to 0 |
| Spatial.LevelInRange | src/mixer.rs:131-141 | the level fits 0..127 and means speaking exactly from 39 on |
| Spatial.LevelThreshold | src/mixer.rs:131-141 | which level a frame reaches, as a comparison of its sum of squares with a whole number, without a root |
| Mixer.MixStereo | src/mixer.rs:154-173 | the in-place fill, accumulate and clip loops leave in every sample the soft clip of the sum of all contributions |
| Mixer.Accumulate | src/mixer.rs:157-166 | one contribution adds its two weights to the first 960 sample pairs and nothing else |
| Proto.Parse | src/proto.rs:340-382 | the loops over the two tables give the message that the tree means |
| Proto.PositionParsed | src/proto.rs:322-337 | for every tree: a position or rotation is read exactly when all its parts are numbers, as a hundredth of them |
| Proto.JoinParsed | src/proto.rs:344-348 | for every tree: any "j" is a join, and a primary one only with the flag true |
| Proto.PreferencesParsed | src/proto.rs:366-379 | for every tree: of each table the first 256 fields are looked at, and every volume (its low 32 bits) and every flag among them comes out, in order and nothing else |
| Proto.ReportReadsBack | src/proto.rs:265-360 | every report a viewer can make, a primary join, a join without the flag or none included, is read back part by part, in metres, each key in its own field |
| Proto.ParsedIsCapped | src/proto.rs:366-379 | at most 256 entries of each kind come out of a message, each volume within 32 bits |
| Proto.RosterJson | src/proto.rs:428-443 | the loop over the entries computes the roster |
| Proto.LastEntryWins | src/proto.rs:440 | the roster's keys are the agents of the entries, and each agent has its last entry |
| Room.Session.ApplyData | src/room.rs:160-228 | a message turns the whole control state into the specified one and keeps its bounds |
| Room.EarAfter | src/room.rs:181-206 | for every message: the ear it reports, or else the old one, is taken as it is while the position is unknown, and becomes the nearest point of the 50 m ball around the avatar once it is known; a message with none of the four parts moves nothing |
| Room.LastEarWins | src/room.rs:181-206 | over any messages: after the last report of an ear and no later one of the avatar, the ear is that report, tethered if the position is known |
| Room.Session.PushFrame | src/room.rs:146-152 | the queue gains the frame and loses its oldest one when it held ten |
| Room.Session.TakeFrame | src/room.rs:155-157 | the head is returned and removed |
| Room.Session.UpdateLevel | src/room.rs:121-143 | level and speaking flag are those of the frame, silence for none |
| Room.SoundIsKept | src/room.rs:160-228 | a known ear within 50 m, at most 256 preferences of each kind and gains in [0, 4] survive every message |
| Room.EverySequenceIsSound | src/room.rs:160-228 | these bounds hold after any sequence of messages |
| Room.KnownMeansReported | src/room.rs:186-189 | a position is known if and only if some message carried the avatar's position |
| Room.LastReportWins | src/room.rs:161-198 | after any messages avatar position, both orientations and the primary flag are the last ones reported |
| Room.LastPreferenceWins | src/room.rs:208-228 | after any messages every agent held in the tables has the volume and the mute flag of its last entry in any of them |
| Room.FewAgentsAreHeld | src/room.rs:208-228 | as long as the messages name at most 256 agents of a kind the table holds exactly those |
| Room.MuteOverridesVolume | src/room.rs:232-237 | a muted speaker is silent whatever volume is stored, and any other is heard at its stored volume or at 1 |
| Room.LastMuteDecides | src/room.rs:208-237 | over any messages the last mute flag of a held speaker decides, and where it does not silence it the last volume counts |
| Room.UnmuteRestores | src/room.rs:218-237 | muting silences, unmuting restores the volume set before, and nobody else is affected |
| Room.GainOfRaw | src/room.rs:213-214 | a raw volume is its 220th part, cut at 4 |
| Room.PutCappedBounds | src/room.rs:215-217 | an existing key is always updated and the map never outgrows 256 |
| Jitter.SplitPacket | src/session.rs:231-247 | the loop over the decoded samples pushes exactly the packet's frames, in order |
| Jitter.SplitConserves | src/session.rs:235-246 | n samples become ceil(n/960) whole frames whose concatenation is the samples and less than a frame of silence |
| Jitter.PushAllKeepsNewest | src/room.rs:146-152 | after any pushes the queue is the newest ten frames |
| Jitter.PacketSurvives | src/session.rs:54 | the largest decodable packet never evicts its own frames |
| Jitter.QueueConserves | src/room.rs:146-157 | over any run of pushes and takes the queue is the tail of what was pushed, frames are played in push order, and each was played, dropped or still waits |
| Volume.ParsedClientMessage | client/voice_llwebrtc.js:589-594 | what the server reads out of the client's volume message |
| Volume.HeardAfter | src/room.rs:208-237 | the gain heard after one volume message, for every table and every volume |
| Volume.VolumeEndToEnd | client/voice_llwebrtc.js:589-594 | with room in the table the volume chosen is the volume heard, to one step of 1/220 and cut at 4, if and only if it survives the cast to 32 bits, with the exact exceptions above 2^32 and above 2^64 |
| Volume.VolumeWithoutRoom | src/room.rs:208-237 | what a full table makes of it |
| Volume.HugeVolumeWraps | src/proto.rs:366-372 | the slider value 2^32/220 is heard as silence |
| MixRoom.BuildRoster | src/room.rs:381-415 | the loop computes the roster that RosterContent and WhoIsInRoster describe, and everybody in the room counts as announced afterwards |
| RosterLaws.RosterContent | src/room.rs:384-408 | an agent's entry comes from its last voice that is audible or new: power is that voice's level, speaking is set from level 39 up, moderator-muted never, and a join carries that voice's primary flag |
| RosterLaws.WhoIsInRoster | src/room.rs:395-415 | the agents in a roster are exactly those with an audible voice and those new to the listener, and there is no roster if there are none |
| MixRoom.MixOne | src/room.rs:327-370 | the inner loop with its early exits is the specified mix of everybody else |
| MixRoom.Contribute | src/room.rs:331-362 | one speaker's contribution with all the early exits of the loop |
| MixRoom.TakeFrames | src/room.rs:316-321 | every queue loses exactly its head, and every level is that of the frame |
| MixRoom.Tick | src/room.rs:314-378 | for every member at once: its mix, its roster, its queue, its level and its announcements, as functions of the room before the tick |
| MixRoom.DrainLone | src/main.rs:325-331 | a lone member's queue is emptied and its level is that of the newest frame |
| MixLaws.MixIsClippedSum | src/room.rs:325-365 | every sample is the plain sum over the other sessions of frame times peer gain times distance gain times pan where that is in [-1, 1], and its hyperbolic tangent elsewhere |
| MixLaws.MutedIsSilent | src/room.rs:232-237 | whatever volume is stored for a muted speaker, the mix is the one the listener would get if the speaker had said nothing |
| MixLaws.VolumeOfUnmuted | src/room.rs:232-237 | an unmuted speaker is mixed at its stored volume, or at 1 |
| MixLaws.MixIsBounded | src/mixer.rs:168-172 | no sample leaves [-1, 1] |
| MixLaws.MixIgnoresOrder | src/room.rs:325-365 | listing the members in another order changes nobody's audio |
| MixLaws.OtherListenersDoNotMatter | src/room.rs:325-365 | nobody's mix depends on another listener's volumes, mutes, ear, orientation or kind |
| MixLaws.WhoIsHeard | src/room.rs:332-357 | exactly who is mixed for a listener in a spatial room |
| MixLaws.EarshotBound | src/room.rs:203-205 | whatever messages both have sent, who is mixed stands less than 60 m from the ear and less than 110 m from the avatar, and both have reported their position |
| MixLaws.MirrorTheorem | src/room.rs:325-365 | two members facing the same way get buffers with left and right swapped |
| MixLaws.SoundGains | src/room.rs:232-237 | no listener in bounds applies a negative gain |
| Indices.Registry.Insert | src/room.rs:257-264 | both indices gain the session and still agree |
| Indices.Registry.Remove | src/room.rs:266-283 | the session leaves both indices, an empty room is dropped, everybody forgets the agent, and nothing else changes |
| Indices.Registry.Members | src/room.rs:289-296 | exactly the sessions of the room, none twice |
| Indices.RemoveAgrees | src/room.rs:266-276 | the two indices agree after a removal |
| Indices.WithoutMembers | src/room.rs:270 | retaining all but one id removes it, keeps all others and introduces no repeat |
| Indices.ListsKeepOrder | src/room.rs:257-276 | an arrival is appended to its room's list, a departure takes one id out of it, and no other room's list changes |
| Indices.WithoutOfParts | src/room.rs:270 | retaining keeps the order of a list |
| Indices.ResolvedOfParts | src/room.rs:289-296 | reading a room's members keeps the order of its list |
| Service.App.DropSession | src/main.rs:95-124 | both tables lose the id and its session is closed; exactly the open channels of the room hear of the agent, and only once it has no session left there |
| Service.NoticeRule | src/main.rs:109-121 | exactly which transports are told of a departure |
| Service.App.ReapDead | src/main.rs:306-316 | exactly the dead sessions go, and each survivor with an open channel hears exactly once of each agent that thereby left its room |
| Service.ToldOfOneMore | src/main.rs:102-121 | dropping one more session keeps the notices exact and free of repeats |
| Service.App.Provision | src/main.rs:131-231 | the reply, the session that is ended first whatever comes of the request, and the one it adds: of the region's agent, in the parcel or the channel asked for, with an untouched transport in both tables; served one at a time, requests never exceed 900 sessions |
| Service.AnswersOfRequests | src/main.rs:134-200 | each reply and each refusal if and only if its own condition holds, in the order the code asks |
| Service.SameRoom | src/main.rs:179-192 | two requests lead to one room exactly for the same channel, or the same parcel of the same scene |
| Service.EndedByRequest | src/main.rs:134-158 | a request ends the session it names if and only if it logs out or carries an offer |
| Service.App.Admit | src/main.rs:197-216 | a port is used up before the transport is tried; both tables gain the session only if that works |
| LockSteps.InvHolds | src/main.rs:95-121 | the invariants on ids, room lists, endpoints and departures hold after every interleaving of lock steps |
| LockSteps.ListsKept | src/room.rs:257-276 | every single lock step keeps the lists in agreement with the registered, arriving and leaving sessions |
| LockResults.RegistryTheorem | src/room.rs:256-283 | at every moment each session is listed exactly once, in its own room; an id listed without a session belongs to an unfinished insert or removal; no empty room is kept |
| LockResults.MembersTheorem | src/room.rs:289-296 | with any steps between its two locks, a read returns no session twice, every session live at both, and only sessions of the room live at the second |
| LockResults.OneDropGetsTheSession | src/main.rs:95-97 | however many drops race on one id, exactly one gets the session, so at most one broadcasts |
| LockResults.LastDropAnnounces | src/main.rs:106-121 | when the last session of an agent in a room is gone and all its drops are done, one of them broadcast the departure after the last removal |
| LockResults.NoFalseDeparture | src/main.rs:110-112 | no departure is broadcast over a session that was there at both reads |
| LockResults.EndpointTheorem | src/main.rs:215-216 | an endpoint always has a session registered or arriving; between calls the tables agree if and only if no session that is still registered lost its endpoint to a drop that came before its registration |
| LockResults.OrphanRun | src/main.rs:215-216 | a run that leaves a registered session without an endpoint and with nothing under way |
| LockResults.OrphanStays | src/main.rs:306-316 | no step ends such a session but the removal by a call to drop that very id |
| LockResults.OrphanForever | src/main.rs:306-316 | so it stays through any run without such a removal |
| LockResults.CeilingTheorem | src/main.rs:162-168 | with at most p provisions past the check, they and the registered sessions never exceed 899 + p |
| LockResults.CeilingIsTight | src/main.rs:162-168 | for every p a run reaches 899 + p |
| Announce.JoinDelivered | src/room.rs:381-410 | a roster carries a join if and only if the agent is new to the listener, present, and not masked by a later audible session |
| Announce.WholeTicksShowTruth | src/room.rs:240-246 | over every run of arrivals, whole ticks and departures, for a listener whose channel is open whenever a tick lists it or a departure is told to its room and from whom no second session hides a join: announced is within shown and shown within who is there, and right after a tick that lists it the three are equal |
| Announce.ViewersSeeTruth | src/room.rs:240-246 | the same containment where reading a list and working on it are two steps, for a listener whose ticks work on the room as it is |
| Announce.AnnouncedAreLive | src/room.rs:266-283 | whatever the channel does, for a listener whose ticks work on the room as it is: announced is within who is there, and right after a tick that lists it the two are equal |
| Announce.TruthSurvivesStep | src/main.rs:349-356 | for every step and every listener, open or not, exactly what keeps announced within shown within there |
| Announce.TickOfListener | src/room.rs:381-415 | a tick announces everybody it found, and adds to an open view exactly the new and unmasked ones |
| Announce.RemovalOfOther | src/room.rs:276-279 | a removal makes the server forget the agent for every listener, and takes it out of the open views of its room exactly when no session of it is left there |
| Announce.ViewsAgreeAfterTick | src/room.rs:381-410 | for the listener of ViewersSeeTruth the three are equal right after a tick that lists it |
| Announce.WholeTicksServe | src/main.rs:318-341 | in a run of whole ticks every tick works on the room as it is |
| Announce.FreshTickTellsEverybody | src/main.rs:318-356 | for every room, a run that serves its listener all along and ends with everybody shown |
| Announce.TickTells | src/room.rs:388-399 | an agent that a tick announces for the first time enters the view if and only if the channel is open and no later audible session masks it |
| Announce.JoinIsNowOrNever | src/room.rs:240-246 | a join that does not arrive with its tick does not arrive with any later step, until a session of the agent or the listener ends |
| Announce.ClosedChannelLosesJoins | src/main.rs:352-354 | whoever is announced to a closed channel and not shown is shown by no later step of any run, until a session of that agent or the listener ends |
| Announce.NewcomerIsNeverTold | src/main.rs:352-354 | in every run, a viewer whose channel opens only after its first tick is never told of anybody that tick found, while their sessions last |
| Announce.ClosedChannelRun | src/main.rs:352-354 | for every room, a run of two arrivals, a tick and the opening of a channel that ends with the other agent there, announced and not shown |
| Announce.MaskedJoinRun | src/proto.rs:440 | for every room, a run whose last tick finds the channel open and still ends so, because the agent's second session speaks |
| Announce.SecondSessionMasksJoin | src/proto.rs:440 | the smallest room in which a join is masked |
| Announce.DepartedStayGone | src/main.rs:318-341 | a tick keeps the departed out of an open viewer if and only if every unannounced, unmasked agent of its list is still there |
| Announce.StaleTickRevivesTheDeparted | src/main.rs:318-341 | for every room, a run of two arrivals, a read, a departure and a tick after which a viewer shows the departed |
| Announce.ListStaysUpToDate | src/main.rs:318-319 | a list that was read stays exact until a session enters or leaves its room |
| MixerLoop.EveryRunKeeps | src/main.rs:287-368 | the invariants on tasks and endpoint logs hold after every interleaving of ticks, room tasks and listener tasks |
| MixerLoop.InflightTheorem | src/main.rs:290-366 | the counter is the number of unfinished room tasks; all are of the latest tick, one for a room; listener tasks begin once their room is mixed; and at most one send runs per endpoint |
| MixerLoop.NobodyIsLeftOut | src/main.rs:318-364 | when a tick and its work are over, it has come to every room it found, and exactly the members that it read in rooms of two or more were spawned a listener task for |
| MixerLoop.SendMixAtOnce | src/session.rs:99-131 | the encode, stamp and write steps taken together are one call of `send_mix`, with its failures |
| MixerLoop.TickTheorem | src/main.rs:290-303 | a tick does work if and only if all work of the one before is finished, and otherwise only counts itself as skipped |
| MixerLoop.StreamTheorem | src/session.rs:99-131 | every endpoint's packets leave in tick order, the k-th encoded frame carries the k-th stamp, and stamps differ over any 2^26 consecutive frames |

## Left out

- Concurrency inside the classes: `Registry`, `App` and `Session` are sequential; what interleaving does to them is proved on the step systems, whose steps use the same index functions (`Listed`, `Retained`, `ListOf`) as the classes.
- The mixer loop as a method: it never returns and spawns tasks, so it exists as the step system of `mixerloop.dfy`; its reaper, its lone-room branch and the work of a room task are methods (`App.ReapDead`, `DrainLone`, `Tick`).
- Service.App.Provision: the request starts parsed; field validation and the text of the answer are not modelled.
- Volume.ParsedClientMessage: the client's test that the agent id is a UUID, and its reading of a missing number as zero, come before the model starts.
- Room.Session.ApplyData: the filter against non-finite numbers has nothing to act on in exact reals.
- Room.Session.UpdateLevel: the log lines about speaking and the mode that switches them are not modelled.
- MixerLoop.InflightTheorem: a room task that panics would never count itself down; panics are not modelled.
- Announce.ViewersSeeTruth: arrivals, departures and the work of a tick are whole steps, between which a tick has read its list; the lock steps inside them are those of `locksteps.dfy`.
- Announce.JoinsIn: a join counts whatever its primary flag, while the viewer ignores joins that non-primary servers announce (src/room.rs:3-10).
- A viewer's power and speaking display: an agent that falls silent gets no entry, so the display may lag behind the server and nothing is claimed about it.
- Monotonicity of the soft clip: it does not hold around 1, so only its bounds and its formula are used.
- Dates before the epoch in the log: the source reads them as the epoch; the model covers every day number.
- The ICE, DTLS, SCTP and SDP layers, the Opus codec, HTTP, TLS, the JSON-RPC envelope, the admin endpoint, log rate limits and settings, the wall clock, and the rest of the browser client.
