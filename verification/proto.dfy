/** The data-channel messages (src/proto.rs), from the parsed JSON tree on. */
module Proto {
  import opened Wrappers
  import opened RealMath

  const MAX_PEER_ENTRIES := 256
  const MAX_PEER_GAIN := 4.0
  const PEER_GAIN_CONVERSION_FACTOR := 220.0
  const POSITION_SCALE := 100.0
  const U64: int := 0x1_0000_0000_0000_0000

  /** A parsed JSON value; the keys of one object are distinct. */
  datatype Json =
    | Null
    | Bool(b: bool)
    | Int(n: int)
    | Float(x: real)
    | Text(s: string)
    | Array(items: seq<Json>)
    | Object(fields: seq<(string, Json)>)
  {
    function Get(key: string): Option<Json> {
      if Object? then Lookup(fields, key) else None
    }

    function AsF64(): Option<real> {
      if Int? then Some(n as real) else if Float? then Some(x) else None
    }

    function AsU64(): Option<int> {
      if Int? && 0 <= n < U64 then Some(n) else None
    }

    function AsBool(): Option<bool> {
      if Bool? then Some(b) else None
    }

    function Fields(): seq<(string, Json)> {
      if Object? then fields else []
    }
  }

  function Lookup(fields: seq<(string, Json)>, key: string): Option<Json> {
    if fields == [] then None
    else if fields[0].0 == key then Some(fields[0].1)
    else Lookup(fields[1..], key)
  }

  datatype Message = Message(
    join: Option<bool>,
    avatarPos: Option<Vec3>,
    avatarRot: Option<Quat>,
    listenerPos: Option<Vec3>,
    listenerRot: Option<Quat>,
    userGain: seq<(string, int)>,
    userMute: seq<(string, bool)>)

  function Component(v: Json, key: string): Option<real> {
    match v.Get(key)
    case None => None
    case Some(c) => if c.AsF64().Some? then Some(c.AsF64().value / POSITION_SCALE) else None
  }

  function ParseVec3(v: Json): Option<Vec3> {
    match (Component(v, "x"), Component(v, "y"), Component(v, "z"))
    case (Some(x), Some(y), Some(z)) => Some(Vec3(x, y, z))
    case _ => None
  }

  function ParseQuat(v: Json): Option<Quat> {
    match (ParseVec3(v), Component(v, "w"))
    case (Some(u), Some(w)) => Some(Quat(u.x, u.y, u.z, w))
    case _ => None
  }

  function ParseJoin(v: Json): Option<bool> {
    match v.Get("j")
    case None => None
    case Some(j) => Some(j.Get("p").Some? && j.Get("p").value == Bool(true))
  }

  function Capped<T>(s: seq<T>): seq<T> {
    if |s| <= MAX_PEER_ENTRIES then s else s[..MAX_PEER_ENTRIES]
  }

  /** The gain entries among some fields; a number is cast to 32 bits. */
  function GainEntries(fields: seq<(string, Json)>): seq<(string, int)> {
    if fields == [] then []
    else
      var (k, v) := fields[|fields| - 1];
      var before := GainEntries(fields[..|fields| - 1]);
      if v.AsU64().Some? then before + [(k, v.AsU64().value % U32)] else before
  }

  function MuteEntries(fields: seq<(string, Json)>): seq<(string, bool)> {
    if fields == [] then []
    else
      var (k, v) := fields[|fields| - 1];
      var before := MuteEntries(fields[..|fields| - 1]);
      if v.Bool? then before + [(k, v.b)] else before
  }

  function FieldsOf(v: Json, key: string): seq<(string, Json)> {
    match v.Get(key)
    case None => []
    case Some(obj) => obj.Fields()
  }

  /** What a parsed text means. */
  function Parsed(v: Json): Message {
    Message(
      ParseJoin(v),
      if v.Get("sp").Some? then ParseVec3(v.Get("sp").value) else None,
      if v.Get("sh").Some? then ParseQuat(v.Get("sh").value) else None,
      if v.Get("lp").Some? then ParseVec3(v.Get("lp").value) else None,
      if v.Get("lh").Some? then ParseQuat(v.Get("lh").value) else None,
      GainEntries(Capped(FieldsOf(v, "ug"))),
      MuteEntries(Capped(FieldsOf(v, "m"))))
  }

  method Parse(v: Json) returns (m: Message)
    ensures m == Parsed(v)
  {
    hide ParseVec3, ParseQuat, Lookup, Capped;
    var join, sp, sh, lp, lh := None, None, None, None, None;
    var userGain: seq<(string, int)>, userMute: seq<(string, bool)> := [], [];
    if v.Get("j").Some? {
      var p := v.Get("j").value.Get("p");
      join := Some(p.Some? && p.value.AsBool().Some? && p.value.b);
    }
    if v.Get("sp").Some? {
      sp := ParseVec3(v.Get("sp").value);
    }
    if v.Get("sh").Some? {
      sh := ParseQuat(v.Get("sh").value);
    }
    if v.Get("lp").Some? {
      lp := ParseVec3(v.Get("lp").value);
    }
    if v.Get("lh").Some? {
      lh := ParseQuat(v.Get("lh").value);
    }
    var obj := Capped(FieldsOf(v, "ug"));
    for i := 0 to |obj|
      invariant userGain == GainEntries(obj[..i])
    {
      assert obj[..i + 1][..i] == obj[..i];
      var (k, val) := obj[i];
      if val.AsU64().Some? {
        userGain := userGain + [(k, val.AsU64().value % U32)];
      }
    }
    assert obj[..|obj|] == obj;
    obj := Capped(FieldsOf(v, "m"));
    for i := 0 to |obj|
      invariant userMute == MuteEntries(obj[..i])
    {
      assert obj[..i + 1][..i] == obj[..i];
      var (k, val) := obj[i];
      if val.AsBool().Some? {
        userMute := userMute + [(k, val.b)];
      }
    }
    assert obj[..|obj|] == obj;
    m := Message(join, sp, sh, lp, lh, userGain, userMute);
  }

  lemma {:induction false} EntriesAreCapped(fields: seq<(string, Json)>)
    ensures |GainEntries(fields)| <= |fields| && |MuteEntries(fields)| <= |fields|
    ensures forall i :: 0 <= i < |GainEntries(fields)| ==> 0 <= GainEntries(fields)[i].1 < U32
  {
    if fields != [] {
      EntriesAreCapped(fields[..|fields| - 1]);
    }
  }

  /** However large the message, it carries at most 256 entries of each kind, and every raw
      gain fits 32 bits. */
  lemma ParsedIsCapped(v: Json)
    ensures |Parsed(v).userGain| <= MAX_PEER_ENTRIES && |Parsed(v).userMute| <= MAX_PEER_ENTRIES
    ensures forall i :: 0 <= i < |Parsed(v).userGain| ==> 0 <= Parsed(v).userGain[i].1 < U32
  {
    EntriesAreCapped(Capped(FieldsOf(v, "ug")));
    EntriesAreCapped(Capped(FieldsOf(v, "m")));
  }

  // ---------------------------------------------------------------------------
  // Every tree, well-formed or not
  // ---------------------------------------------------------------------------

  predicate IsNumber(v: Option<Json>) {
    v.Some? && (v.value.Int? || v.value.Float?)
  }

  function NumberOf(v: Option<Json>): real
    requires IsNumber(v)
  {
    if v.value.Int? then v.value.n as real else v.value.x
  }

  /** A position counts only if all its parts are numbers, and is a hundredth of them. */
  lemma PositionParsed(v: Json)
    ensures ParseVec3(v).Some? <==> IsNumber(v.Get("x")) && IsNumber(v.Get("y")) && IsNumber(v.Get("z"))
    ensures ParseVec3(v).Some? ==>
              && ParseVec3(v).value.x == NumberOf(v.Get("x")) / 100.0
              && ParseVec3(v).value.y == NumberOf(v.Get("y")) / 100.0
              && ParseVec3(v).value.z == NumberOf(v.Get("z")) / 100.0
    ensures ParseQuat(v).Some? <==> ParseVec3(v).Some? && IsNumber(v.Get("w"))
    ensures ParseQuat(v).Some? ==>
              && ParseQuat(v).value.x == NumberOf(v.Get("x")) / 100.0
              && ParseQuat(v).value.y == NumberOf(v.Get("y")) / 100.0
              && ParseQuat(v).value.z == NumberOf(v.Get("z")) / 100.0
              && ParseQuat(v).value.w == NumberOf(v.Get("w")) / 100.0
  {
    hide Lookup;
  }

  /** Any "j" is a join, and a primary one only where it carries the flag `true`. */
  lemma JoinParsed(v: Json)
    ensures Parsed(v).join.Some? <==> v.Get("j").Some?
    ensures Parsed(v).join == Some(true) <==> v.Get("j").Some? && v.Get("j").value.Get("p") == Some(Bool(true))
  {
    hide Lookup, ParseVec3, ParseQuat, GainEntries, MuteEntries, Capped, FieldsOf;
  }

  predicate IsVolume(v: Json) {
    v.Int? && 0 <= v.n < 0x1_0000_0000_0000_0000
  }

  /** The places of the volumes among the first `n` fields. */
  ghost function Volumes(fields: seq<(string, Json)>, n: nat): set<nat>
    requires n <= |fields|
  {
    set i: nat | i < n && IsVolume(fields[i].1)
  }

  ghost function Flags(fields: seq<(string, Json)>, n: nat): set<nat>
    requires n <= |fields|
  {
    set i: nat | i < n && fields[i].1.Bool?
  }

  lemma OneMoreVolume(fields: seq<(string, Json)>, n: nat)
    requires n < |fields|
    ensures |Volumes(fields, n + 1)| == |Volumes(fields, n)| + if IsVolume(fields[n].1) then 1 else 0
    ensures |Flags(fields, n + 1)| == |Flags(fields, n)| + if fields[n].1.Bool? then 1 else 0
  {
    assert Volumes(fields, n + 1) == if IsVolume(fields[n].1) then Volumes(fields, n) + {n} else Volumes(fields, n);
    assert Flags(fields, n + 1) == if fields[n].1.Bool? then Flags(fields, n) + {n} else Flags(fields, n);
  }

  lemma SamePrefix(fields: seq<(string, Json)>, n: nat, i: nat)
    requires i <= n <= |fields|
    ensures Volumes(fields[..n], i) == Volumes(fields, i) && Flags(fields[..n], i) == Flags(fields, i)
  {
  }

  lemma GainEntriesOfMore(fields: seq<(string, Json)>)
    requires fields != []
    ensures var before, last := fields[..|fields| - 1], fields[|fields| - 1];
            GainEntries(fields) ==
              GainEntries(before) + if IsVolume(last.1) then [(last.0, last.1.n % 0x1_0000_0000)] else []
  {
  }

  /** No volume is lost and their order is kept: the entry for a field stands behind those of
      the volumes before it, and it is the number's low 32 bits. */
  lemma {:induction false} VolumesKept(fields: seq<(string, Json)>)
    ensures |GainEntries(fields)| == |Volumes(fields, |fields|)|
    ensures forall i: nat :: i < |fields| && IsVolume(fields[i].1) ==>
              && |Volumes(fields, i)| < |GainEntries(fields)|
              && GainEntries(fields)[|Volumes(fields, i)|] == (fields[i].0, fields[i].1.n % 0x1_0000_0000)
  {
    if fields != [] {
      var n := |fields| - 1;
      VolumesKept(fields[..n]);
      SamePrefix(fields, n, n);
      OneMoreVolume(fields, n);
      GainEntriesOfMore(fields);
      hide GainEntries;
      forall i: nat | i < n && IsVolume(fields[i].1)
        ensures |Volumes(fields, i)| < |GainEntries(fields[..n])|
        ensures GainEntries(fields[..n])[|Volumes(fields, i)|] == (fields[i].0, fields[i].1.n % 0x1_0000_0000)
      {
        SamePrefix(fields, n, i);
        assert fields[..n][i] == fields[i];
      }
      hide Volumes;
    }
  }

  lemma MuteEntriesOfMore(fields: seq<(string, Json)>)
    requires fields != []
    ensures var before, last := fields[..|fields| - 1], fields[|fields| - 1];
            MuteEntries(fields) ==
              MuteEntries(before) + if last.1.Bool? then [(last.0, last.1.b)] else []
  {
  }

  lemma {:induction false} FlagsKept(fields: seq<(string, Json)>)
    ensures |MuteEntries(fields)| == |Flags(fields, |fields|)|
    ensures forall i: nat :: i < |fields| && fields[i].1.Bool? ==>
              && |Flags(fields, i)| < |MuteEntries(fields)|
              && MuteEntries(fields)[|Flags(fields, i)|] == (fields[i].0, fields[i].1.b)
  {
    if fields != [] {
      var n := |fields| - 1;
      FlagsKept(fields[..n]);
      SamePrefix(fields, n, n);
      OneMoreVolume(fields, n);
      MuteEntriesOfMore(fields);
      hide MuteEntries;
      forall i: nat | i < n && fields[i].1.Bool?
        ensures |Flags(fields, i)| < |MuteEntries(fields[..n])|
        ensures MuteEntries(fields[..n])[|Flags(fields, i)|] == (fields[i].0, fields[i].1.b)
      {
        SamePrefix(fields, n, i);
        assert fields[..n][i] == fields[i];
      }
      hide Flags;
    }
  }

  /** Of each table in a message the first 256 fields are looked at, and every volume and every
      flag among them comes out, in order. */
  lemma PreferencesParsed(v: Json, volumes: seq<(string, Json)>, flags: seq<(string, Json)>, i: nat)
    requires v.Get("ug") == Some(Object(volumes)) && v.Get("m") == Some(Object(flags))
    ensures i < |volumes| && i < 256 && IsVolume(volumes[i].1) ==>
              && |Volumes(volumes, i)| < |Parsed(v).userGain|
              && Parsed(v).userGain[|Volumes(volumes, i)|] == (volumes[i].0, volumes[i].1.n % 0x1_0000_0000)
    ensures i < |flags| && i < 256 && flags[i].1.Bool? ==>
              && |Flags(flags, i)| < |Parsed(v).userMute|
              && Parsed(v).userMute[|Flags(flags, i)|] == (flags[i].0, flags[i].1.b)
    ensures |volumes| <= 256 ==> |Parsed(v).userGain| == |Volumes(volumes, |volumes|)|
    ensures |volumes| > 256 ==> |Parsed(v).userGain| == |Volumes(volumes, 256)|
    ensures |flags| <= 256 ==> |Parsed(v).userMute| == |Flags(flags, |flags|)|
    ensures |flags| > 256 ==> |Parsed(v).userMute| == |Flags(flags, 256)|
  {
    hide Lookup, ParseVec3, ParseQuat, ParseJoin, GainEntries, MuteEntries, Volumes, Flags;
    var few, fewer := Capped(volumes), Capped(flags);
    VolumesKept(few);
    FlagsKept(fewer);
    SamePrefix(volumes, |few|, |few|);
    SamePrefix(flags, |fewer|, |fewer|);
    if i < |few| {
      SamePrefix(volumes, |few|, i);
    }
    if i < |fewer| {
      SamePrefix(flags, |fewer|, i);
    }
    assert few == volumes[..|few|] && fewer == flags[..|fewer|];
  }

  /** What a viewer reports, in its own units: centimetres, and hundredths of a unit
      quaternion. */
  datatype Report = Report(
    join: Option<bool>, avatarPos: Option<(int, int, int)>, avatarRot: Option<(int, int, int, int)>,
    listenerPos: Option<(int, int, int)>, listenerRot: Option<(int, int, int, int)>)

  function Field(key: string, v: Option<Json>): seq<(string, Json)> {
    if v.None? then [] else [(key, v.value)]
  }

  function PointJson(p: Option<(int, int, int)>): Option<Json> {
    if p.None? then None
    else Some(Object([("x", Int(p.value.0)), ("y", Int(p.value.1)), ("z", Int(p.value.2))]))
  }

  function TurnJson(q: Option<(int, int, int, int)>): Option<Json> {
    if q.None? then None
    else Some(Object([("x", Int(q.value.0)), ("y", Int(q.value.1)), ("z", Int(q.value.2)), ("w", Int(q.value.3))]))
  }

  /** A viewer whose own region this is not leaves the flag out altogether. */
  function JoinJson(join: Option<bool>): Option<Json> {
    if join.None? then None else Some(Object(if join.value then [("p", Bool(true))] else []))
  }

  function ReportJson(r: Report): Json {
    Object(Field("sp", PointJson(r.avatarPos)) + (Field("sh", TurnJson(r.avatarRot)) +
          (Field("lp", PointJson(r.listenerPos)) + (Field("lh", TurnJson(r.listenerRot)) +
          Field("j", JoinJson(r.join))))))
  }

  function Metres(p: Option<(int, int, int)>): Option<Vec3> {
    if p.None? then None
    else Some(Vec3(p.value.0 as real / 100.0, p.value.1 as real / 100.0, p.value.2 as real / 100.0))
  }

  function Rotation(q: Option<(int, int, int, int)>): Option<Quat> {
    if q.None? then None
    else Some(Quat(q.value.0 as real / 100.0, q.value.1 as real / 100.0, q.value.2 as real / 100.0,
                   q.value.3 as real / 100.0))
  }

  lemma LookupField(key: string, v: Option<Json>, rest: seq<(string, Json)>, wanted: string)
    ensures Lookup(Field(key, v) + rest, wanted) == if v.Some? && key == wanted then v else Lookup(rest, wanted)
  {
    if v.Some? {
      assert (Field(key, v) + rest)[1..] == rest;
    } else {
      assert Field(key, v) + rest == rest;
    }
  }

  lemma LookupInReport(r: Report, wanted: string)
    ensures Lookup(ReportJson(r).fields, wanted)
            == if wanted == "sp" then PointJson(r.avatarPos)
               else if wanted == "sh" then TurnJson(r.avatarRot)
               else if wanted == "lp" then PointJson(r.listenerPos)
               else if wanted == "lh" then TurnJson(r.listenerRot)
               else if wanted == "j" then JoinJson(r.join)
               else None
  {
    hide PointJson, TurnJson, JoinJson, Field, Lookup;
    var none: seq<(string, Json)> := [];
    var j := Field("j", JoinJson(r.join));
    var lh := Field("lh", TurnJson(r.listenerRot)) + j;
    var lp := Field("lp", PointJson(r.listenerPos)) + lh;
    var sh := Field("sh", TurnJson(r.avatarRot)) + lp;
    LookupField("sp", PointJson(r.avatarPos), sh, wanted);
    LookupField("sh", TurnJson(r.avatarRot), lp, wanted);
    LookupField("lp", PointJson(r.listenerPos), lh, wanted);
    LookupField("lh", TurnJson(r.listenerRot), j, wanted);
    LookupField("j", JoinJson(r.join), none, wanted);
    assert j + none == j;
    LookupInNothing(wanted);
  }

  lemma LookupInNothing(wanted: string)
    ensures Lookup([], wanted) == None
  {
  }

  lemma {:induction false} LookupFinds(fields: seq<(string, Json)>, i: nat, key: string)
    requires i < |fields| && fields[i].0 == key && forall j :: 0 <= j < i ==> fields[j].0 != key
    ensures Lookup(fields, key) == Some(fields[i].1)
  {
    if i > 0 {
      LookupFinds(fields[1..], i - 1, key);
    }
  }

  lemma AxesDiffer()
    ensures "x" != "y" && "x" != "z" && "x" != "w" && "y" != "z" && "y" != "w" && "z" != "w"
  {
    assert "x"[0] != "y"[0] && "x"[0] != "z"[0] && "x"[0] != "w"[0];
    assert "y"[0] != "z"[0] && "y"[0] != "w"[0] && "z"[0] != "w"[0];
  }

  lemma PointReadsBack(p: (int, int, int))
    ensures ParseVec3(PointJson(Some(p)).value) == Metres(Some(p))
  {
    hide Lookup;
    var f := PointJson(Some(p)).value.fields;
    AxesDiffer();
    LookupFinds(f, 0, "x");
    LookupFinds(f, 1, "y");
    LookupFinds(f, 2, "z");
  }

  lemma TurnReadsBack(q: (int, int, int, int))
    ensures ParseQuat(TurnJson(Some(q)).value) == Rotation(Some(q))
  {
    hide Lookup;
    var f := TurnJson(Some(q)).value.fields;
    AxesDiffer();
    LookupFinds(f, 0, "x");
    LookupFinds(f, 1, "y");
    LookupFinds(f, 2, "z");
    LookupFinds(f, 3, "w");
  }

  lemma JoinReadsBack(join: bool)
    ensures var j := JoinJson(Some(join)).value;
            j.Get("p") == if join then Some(Bool(true)) else None
  {
  }

  lemma KeysDiffer()
    ensures "sp" != "sh" && "sp" != "lp" && "sp" != "lh" && "sh" != "lp" && "sh" != "lh" && "lp" != "lh"
    ensures "j" !in {"sp", "sh", "lp", "lh"}
    ensures "m" !in {"sp", "sh", "lp", "lh", "j"} && "ug" !in {"sp", "sh", "lp", "lh", "j"}
  {
    assert "sp"[0] != "lp"[0] && "sp"[1] != "sh"[1] && "lp"[1] != "lh"[1] && "ug"[0] != "sp"[0] && "ug"[0] != "lp"[0];
    assert |"j"| == |"m"| == 1 && |"sp"| == |"sh"| == |"lp"| == |"lh"| == |"ug"| == 2;
    assert "m"[0] != "j"[0];
  }

  /** Part by part. */
  lemma PartsReadBack(r: Report)
    ensures PointJson(r.avatarPos).Some? == r.avatarPos.Some? && TurnJson(r.avatarRot).Some? == r.avatarRot.Some?
    ensures PointJson(r.listenerPos).Some? == r.listenerPos.Some?
    ensures TurnJson(r.listenerRot).Some? == r.listenerRot.Some?
    ensures JoinJson(r.join).Some? == r.join.Some?
    ensures Metres(r.avatarPos) == if r.avatarPos.Some? then ParseVec3(PointJson(r.avatarPos).value) else None
    ensures Rotation(r.avatarRot) == if r.avatarRot.Some? then ParseQuat(TurnJson(r.avatarRot).value) else None
    ensures Metres(r.listenerPos) == if r.listenerPos.Some? then ParseVec3(PointJson(r.listenerPos).value) else None
    ensures Rotation(r.listenerRot) == if r.listenerRot.Some? then ParseQuat(TurnJson(r.listenerRot).value) else None
    ensures r.join.Some? ==> JoinJson(r.join).value.Get("p") == if r.join.value then Some(Bool(true)) else None
  {
    hide Lookup, ParseVec3, ParseQuat;
    if r.avatarPos.Some? { PointReadsBack(r.avatarPos.value); }
    if r.avatarRot.Some? { TurnReadsBack(r.avatarRot.value); }
    if r.listenerPos.Some? { PointReadsBack(r.listenerPos.value); }
    if r.listenerRot.Some? { TurnReadsBack(r.listenerRot.value); }
    if r.join.Some? { JoinReadsBack(r.join.value); }
  }

  /** Every report is read back as the viewer meant it, in metres, whichever parts it has. */
  lemma ReportReadsBack(r: Report)
    ensures Parsed(ReportJson(r))
            == Message(r.join, Metres(r.avatarPos), Rotation(r.avatarRot), Metres(r.listenerPos),
                       Rotation(r.listenerRot), [], [])
  {
    hide Field, Lookup, ParseVec3, ParseQuat, PointJson, TurnJson, JoinJson, Metres, Rotation;
    LookupInReport(r, "sp");
    LookupInReport(r, "sh");
    LookupInReport(r, "lp");
    LookupInReport(r, "lh");
    LookupInReport(r, "j");
    LookupInReport(r, "ug");
    LookupInReport(r, "m");
    KeysDiffer();
    PartsReadBack(r);
  }

  // ---------------------------------------------------------------------------
  // What the server sends
  // ---------------------------------------------------------------------------

  datatype RosterEntry = RosterEntry(joined: bool, primary: bool, power: int, speaking: bool, moderatorMuted: bool)

  /** One agent's object in a roster; `join` is its "j" member. */
  datatype EntryJson = EntryJson(join: Option<bool>, power: int, speaking: bool, moderatorMuted: bool)

  type Roster = map<string, EntryJson>

  function ToJson(e: RosterEntry): EntryJson {
    EntryJson(if e.joined then Some(e.primary) else None, e.power, e.speaking, e.moderatorMuted)
  }

  /** A later entry for an agent replaces an earlier one. */
  function JsonOf(entries: seq<(string, RosterEntry)>): Roster {
    if entries == [] then map[]
    else JsonOf(entries[..|entries| - 1])[entries[|entries| - 1].0 := ToJson(entries[|entries| - 1].1)]
  }

  method RosterJson(entries: seq<(string, RosterEntry)>) returns (root: Roster)
    ensures root == JsonOf(entries)
  {
    root := map[];
    for i := 0 to |entries|
      invariant root == JsonOf(entries[..i])
    {
      assert entries[..i + 1][..i] == entries[..i];
      root := root[entries[i].0 := ToJson(entries[i].1)];
    }
    assert entries[..|entries|] == entries;
  }

  predicate IsLastOf(entries: seq<(string, RosterEntry)>, agent: string, i: int) {
    0 <= i < |entries| && entries[i].0 == agent && forall j :: i < j < |entries| ==> entries[j].0 != agent
  }

  lemma LastOfLonger(entries: seq<(string, RosterEntry)>, agent: string, i: int)
    requires entries != [] && 0 <= i < |entries|
    ensures var n := |entries| - 1;
            IsLastOf(entries, agent, i) <==>
              if entries[n].0 == agent then i == n else i < n && IsLastOf(entries[..n], agent, i)
  {
    var n := |entries| - 1;
    var before := entries[..n];
    assert forall j :: 0 <= j < n ==> before[j] == entries[j];
  }

  /** The roster's keys are the agents of the entries, and each agent has its last entry. */
  lemma {:induction false} LastEntryWins(entries: seq<(string, RosterEntry)>, agent: string)
    ensures agent in JsonOf(entries) <==> exists i :: IsLastOf(entries, agent, i)
    ensures forall i :: IsLastOf(entries, agent, i) ==>
              agent in JsonOf(entries) && JsonOf(entries)[agent] == ToJson(entries[i].1)
  {
    if entries != [] {
      var n := |entries| - 1;
      LastEntryWins(entries[..n], agent);
      hide ToJson;
      if entries[n].0 == agent {
        LastOfLonger(entries, agent, n);
      } else if i :| IsLastOf(entries[..n], agent, i) {
        LastOfLonger(entries, agent, i);
      }
      forall i | IsLastOf(entries, agent, i)
        ensures if entries[n].0 == agent then i == n else IsLastOf(entries[..n], agent, i)
      {
        LastOfLonger(entries, agent, i);
      }
    }
  }
}
