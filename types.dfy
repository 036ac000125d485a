// Value declarations of src/types.ts: the gun table, the game-mode flags and
// mode-name table, and the event records stored per connection.

module Optional {
  /** A value that may be absent (the source's `undefined` / `void` result). */
  datatype Option<+T> = None | Some(value: T)
}

module Types {
  import opened Optional

  /** A point or velocity in space: `[x, y, z]`. */
  type Vec3 = (real, real, real)

  // ---------------------------------------------------------------------
  // Guns

  /** The names of the guns, indexed by the protocol's gun number. */
  const GunNames: seq<string> := ["FIST", "SG", "CG", "RL", "RIFLE", "GL", "PISTOL"]

  /** `gunNames[gun]`: the gun's name, or nothing (`undefined`) for an index
      outside the table. */
  function GunName(gun: int): (r: Option<string>)
    ensures r.Some? <==> 0 <= gun < 7
    ensures r.Some? ==> r.value == GunNames[gun]
  {
    if 0 <= gun < |GunNames| then Some(GunNames[gun]) else None
  }

  lemma GunTable()
    ensures |GunNames| == 7
    ensures GunName(0) == Some("FIST") && GunName(1) == Some("SG") && GunName(2) == Some("CG")
    ensures GunName(3) == Some("RL") && GunName(4) == Some("RIFLE") && GunName(5) == Some("GL")
    ensures GunName(6) == Some("PISTOL")
    ensures GunName(-1) == None && GunName(7) == None
  {
  }

  // ---------------------------------------------------------------------
  // Game modes

  const M_TEAM: bv32       := 1 << 0
  const M_NOITEMS: bv32    := 1 << 1
  const M_NOAMMO: bv32     := 1 << 2
  const M_INSTA: bv32      := 1 << 3
  const M_EFFICIENCY: bv32 := 1 << 4
  const M_TACTICS: bv32    := 1 << 5
  const M_CAPTURE: bv32    := 1 << 6
  const M_REGEN: bv32      := 1 << 7
  const M_CTF: bv32        := 1 << 8
  const M_PROTECT: bv32    := 1 << 9
  const M_HOLD: bv32       := 1 << 10
  const M_EDIT: bv32       := 1 << 12
  const M_DEMO: bv32       := 1 << 13
  const M_LOCAL: bv32      := 1 << 14
  const M_LOBBY: bv32      := 1 << 15
  const M_DMSP: bv32       := 1 << 16
  const M_CLASSICSP: bv32  := 1 << 17
  const M_COLLECT: bv32    := 1 << 19

  /** Every mode flag declared by the source, in declaration order. */
  const ModeFlags: seq<bv32> := [
    M_TEAM, M_NOITEMS, M_NOAMMO, M_INSTA, M_EFFICIENCY, M_TACTICS, M_CAPTURE,
    M_REGEN, M_CTF, M_PROTECT, M_HOLD, M_EDIT, M_DEMO, M_LOCAL, M_LOBBY,
    M_DMSP, M_CLASSICSP, M_COLLECT]

  predicate IsSingleBit(f: bv32) {
    f != 0 && f & (f - 1) == 0
  }

  /** Each flag is one bit. */
  lemma ModeFlagsAreSingleBits()
    ensures |ModeFlags| == 18
    ensures forall i :: 0 <= i < |ModeFlags| ==> IsSingleBit(ModeFlags[i])
  {
  }

  /** No two flags share a bit. */
  lemma ModeFlagsAreDisjoint()
    ensures forall i, j :: 0 <= i < j < |ModeFlags| ==> ModeFlags[i] & ModeFlags[j] == 0
  {
    FlagsDisjointBelow6();
    FlagsDisjointFrom6();
  }

  // The pairs are checked in two groups, by the position of the first flag.

  lemma FlagsDisjointBelow6()
    ensures forall i, j :: 0 <= i < 6 && i < j < |ModeFlags| ==> ModeFlags[i] & ModeFlags[j] == 0
  {
  }

  lemma FlagsDisjointFrom6()
    ensures forall i, j :: 6 <= i < j < |ModeFlags| ==> ModeFlags[i] & ModeFlags[j] == 0
  {
  }

  /** The entries from which the source builds `modeName`, in its order. */
  const ModeTable: seq<(bv32, string)> := [
    (M_LOCAL | M_CLASSICSP, "SP"),
    (M_LOCAL | M_DMSP, "DMSP"),
    (M_DEMO | M_LOCAL, "demo"),
    (M_LOBBY, "ffa"),
    (M_EDIT, "coop edit"),
    (M_TEAM, "teamplay"),
    (M_NOITEMS | M_INSTA, "instagib"),
    (M_NOITEMS | M_INSTA | M_TEAM, "insta team"),
    (M_NOITEMS | M_EFFICIENCY, "efficiency"),
    (M_NOITEMS | M_EFFICIENCY | M_TEAM, "effic team"),
    (M_NOITEMS | M_TACTICS, "tactics"),
    (M_NOITEMS | M_TACTICS | M_TEAM, "tac team"),
    (M_NOAMMO | M_TACTICS | M_CAPTURE | M_TEAM, "capture"),
    (M_NOITEMS | M_CAPTURE | M_REGEN | M_TEAM, "regen capture"),
    (M_CTF | M_TEAM, "ctf"),
    (M_NOITEMS | M_INSTA | M_CTF | M_TEAM, "insta ctf"),
    (M_CTF | M_PROTECT | M_TEAM, "protect"),
    (M_NOITEMS | M_INSTA | M_CTF | M_PROTECT | M_TEAM, "insta protect"),
    (M_CTF | M_HOLD | M_TEAM, "hold"),
    (M_NOITEMS | M_INSTA | M_CTF | M_HOLD | M_TEAM, "insta hold"),
    (M_NOITEMS | M_EFFICIENCY | M_CTF | M_TEAM, "effic ctf"),
    (M_NOITEMS | M_EFFICIENCY | M_CTF | M_PROTECT | M_TEAM, "effic protect"),
    (M_NOITEMS | M_EFFICIENCY | M_CTF | M_HOLD | M_TEAM, "effic hold"),
    (M_COLLECT | M_TEAM, "collect"),
    (M_NOITEMS | M_INSTA | M_COLLECT | M_TEAM, "insta collect"),
    (M_NOITEMS | M_EFFICIENCY | M_COLLECT | M_TEAM, "effic collect")]

  /** No key occurs twice among `entries`. */
  ghost predicate DistinctKeys<K, V>(entries: seq<(K, V)>) {
    forall i, j :: 0 <= i < j < |entries| ==> entries[i].0 != entries[j].0
  }

  /** `new Map(entries).get(key)`: the value of the LAST entry whose key is
      `key` (a later entry overwrites an earlier one), or nothing. */
  function Lookup<K(==), V>(entries: seq<(K, V)>, key: K): (r: Option<V>)
    ensures r.Some? ==>
      exists i :: && 0 <= i < |entries| && entries[i] == (key, r.value)
                  && forall j :: i < j < |entries| ==> entries[j].0 != key
    ensures r.None? <==> forall i :: 0 <= i < |entries| ==> entries[i].0 != key
  {
    if entries == [] then None
    else if entries[|entries| - 1].0 == key then Some(entries[|entries| - 1].1)
    else Lookup(entries[..|entries| - 1], key)
  }

  /** With distinct keys, every row's key maps to that row's value. */
  lemma {:induction false} LookupDistinct<K, V>(entries: seq<(K, V)>, i: int)
    requires DistinctKeys(entries)
    requires 0 <= i < |entries|
    ensures Lookup(entries, entries[i].0) == Some(entries[i].1)
  {
    if i < |entries| - 1 {
      var init := entries[..|entries| - 1];
      assert entries[i] == init[i];
      assert DistinctKeys(init);
      LookupDistinct(init, i);
    }
  }

  lemma ModeTableKeysDistinct()
    ensures |ModeTable| == 26
    ensures DistinctKeys(ModeTable)
  {
    KeysDistinctBelow6();
    KeysDistinctBelow13();
    KeysDistinctFrom13();
  }

  // The pairs of rows are checked in three groups, by the position of the
  // first row.

  lemma KeysDistinctBelow6()
    ensures forall i, j :: 0 <= i < 6 && i < j < |ModeTable| ==> ModeTable[i].0 != ModeTable[j].0
  {
  }

  lemma KeysDistinctBelow13()
    ensures forall i, j :: 6 <= i < 13 && i < j < |ModeTable| ==> ModeTable[i].0 != ModeTable[j].0
  {
  }

  lemma KeysDistinctFrom13()
    ensures forall i, j :: 13 <= i < j < |ModeTable| ==> ModeTable[i].0 != ModeTable[j].0
  {
  }

  /** `modeName.get(mask)`: the name of the mode whose flag combination is
      exactly `mask`. */
  function ModeName(mask: bv32): (r: Option<string>)
    ensures r.Some? ==> exists i :: 0 <= i < |ModeTable| && ModeTable[i] == (mask, r.value)
    ensures r.None? <==> forall i :: 0 <= i < |ModeTable| ==> ModeTable[i].0 != mask
  {
    Lookup(ModeTable, mask)
  }

  /** `modeName` is a partial function: each of its 26 keys is different and
      maps to the name written beside it. */
  lemma ModeNameTable()
    ensures |ModeTable| == 26 && DistinctKeys(ModeTable)
    ensures forall i :: 0 <= i < |ModeTable| ==> ModeName(ModeTable[i].0) == Some(ModeTable[i].1)
  {
    ModeTableKeysDistinct();
    forall i | 0 <= i < |ModeTable|
      ensures ModeName(ModeTable[i].0) == Some(ModeTable[i].1)
    {
      LookupDistinct(ModeTable, i);
    }
  }

  /** Three of the names, looked up by their flags. */
  lemma ModeNameExamples()
    ensures ModeName(M_LOBBY) == Some("ffa") && ModeName(M_TEAM) == Some("teamplay")
    ensures ModeName(M_CTF | M_TEAM) == Some("ctf")
  {
    ModeNameTable();
    assert ModeTable[3] == (M_LOBBY, "ffa");
    assert ModeTable[5] == (M_TEAM, "teamplay");
    assert ModeTable[14] == (M_CTF | M_TEAM, "ctf");
  }

  // ---------------------------------------------------------------------
  // Events

  /** `GameEvent`: every record stored for a connection; every kind carries
      the timestamp of the message it came from. */
  datatype GameEvent =
    | Position(timestamp: int, yaw: real, pitch: real, roll: real, pos: Vec3, vel: Vec3)
    | Ping(timestamp: int, ping: real)
    | Shot(timestamp: int, gun: Option<string>, origin: Vec3, target: Vec3)
    | Hit(timestamp: int, tcn: int, damage: int)
    | Damage(timestamp: int, acn: int, damage: int)
    | Kill(timestamp: int, tcn: int)
    | Died(timestamp: int, acn: int)
    | Spawn(timestamp: int)

  /** `GamePlayEvent`: the discrete kinds kept in a connection's `game` list. */
  predicate IsGamePlay(e: GameEvent) {
    !e.Position? && !e.Ping?
  }

  predicate IsPing(e: GameEvent) {
    e.Ping?
  }

  predicate IsPosition(e: GameEvent) {
    e.Position?
  }

  type GamePlayEvent = e: GameEvent | IsGamePlay(e) witness Spawn(0)

  /** `InterpolatedValue<T>`: a reconstructed value, the time adjustment that
      was applied, and the two recorded samples it was computed from. */
  datatype InterpolatedValue<T> = InterpolatedValue(value: T, adjust: real, rawInterval: (GameEvent, GameEvent))
}
