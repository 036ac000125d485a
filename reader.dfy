// The message-decoding state machine of src/reader.ts: a specification over
// values (Step, StepAll, Finalize) and the class GameReader, whose methods
// update its four fields and are proved against it.

module Reader {
  import opened Optional
  import opened Types
  import opened EvSeqs
  import opened Records
  import opened GameStates

  /** The decoded messages the reader acts on; every message carries the
      timestamp of the moment it was recorded. `NOther` stands for every
      kind the reader does not handle. */
  datatype Msg =
    | NPauseGame(timestamp: int, isPause: bool)
    | NWelcome(timestamp: int, history: seq<Msg>)
    | NInitClient(timestamp: int, cn: int, name: string)
    | NSwitchName(timestamp: int, cn: int, name: string)
    | NPos(timestamp: int, cn: int, yaw: real, pitch: real, roll: real, pos: Vec3, vel: Vec3)
    | NPing(timestamp: int, cn: int, ping: real)
    | NShotFx(timestamp: int, cn: int, gun: int, from: Vec3, to: Vec3)
    | NDamage(timestamp: int, tcn: int, acn: int, damage: int)
    | NDied(timestamp: int, tcn: int, acn: int)
    | NSpawn(timestamp: int, cn: int)
    | NOther(timestamp: int, kind: string)

  /** A message the reader can process without failing: a sample's bucket
      index `trunc(ts / 1000)` must not be negative, so position and ping
      samples lie after -1000 ms; this holds at every depth. */
  predicate Admissible(m: Msg)
    decreases m
  {
    match m
    case NPos(ts, _, _, _, _, _, _) => ts > -DefaultGranularity
    case NPing(ts, _, _) => ts > -DefaultGranularity
    case NWelcome(_, history) => forall i :: 0 <= i < |history| ==> Admissible(history[i])
    case _ => true
  }

  /** The reader's four fields as values. */
  datatype ReaderState = ReaderState(data: map<int, CnRecord>, spawned: set<int>, maxTs: int, isPause: bool)

  /** Every record is well-formed. */
  ghost predicate RecordsOk(data: map<int, CnRecord>) {
    forall cn :: cn in data ==> RecordOk(data[cn])
  }

  /** Every record is well-formed and every spawned connection has one. */
  ghost predicate Inv(s: ReaderState) {
    RecordsOk(s.data) && s.spawned <= s.data.Keys
  }

  /** Every series has its chain of buckets. */
  ghost predicate Chains(data: map<int, CnRecord>) {
    forall cn :: cn in data ==> Chained(data[cn])
  }

  /** What processing needs: every series has its chain of buckets and every
      spawned connection has a record. `Inv` implies it. */
  ghost predicate Wf(s: ReaderState) {
    Chains(s.data) && s.spawned <= s.data.Keys
  }

  /** The state of a new reader. */
  function Initial(): (s: ReaderState)
    ensures Inv(s)
    ensures s.data == map[] && s.spawned == {} && s.maxTs == 0 && !s.isPause
  {
    ReaderState(map[], {}, 0, false)
  }

  /** `getCnData(cn)`'s record: the stored one, or a fresh one. */
  function Rec(s: ReaderState, cn: int): CnRecord {
    if cn in s.data then s.data[cn] else FreshRecord()
  }

  /** `getCnData(cn)`: `cn` has a record afterwards; nothing else changes. */
  function Touch(s: ReaderState, cn: int): (r: ReaderState)
    ensures r.data.Keys == s.data.Keys + {cn}
    ensures forall c :: c in s.data ==> r.data[c] == s.data[c]
    ensures cn !in s.data ==> r.data[cn] == FreshRecord()
    ensures r.spawned == s.spawned && r.maxTs == s.maxTs && r.isPause == s.isPause
  {
    s.(data := s.data[cn := Rec(s, cn)])
  }

  /** The record `rec` after `addEvent(ev, ..)`: a position sample goes into
      its position series, a ping sample into its ping series, anything else
      at the end of its game list. */
  function WithSample(rec: CnRecord, ev: GameEvent): (r: CnRecord)
    requires Chained(rec)
    requires (ev.Position? || ev.Ping?) ==> ev.timestamp > -DefaultGranularity
    ensures Chained(r)
    ensures ev.Position? ==>
      && r == rec.(pos := r.pos)
      && r.pos == Added(rec.pos, DefaultGranularity, ev)
      && multiset(Flatten(r.pos)) == multiset(Flatten(rec.pos)) + multiset{ev}
    ensures ev.Ping? ==>
      && r == rec.(ping := r.ping)
      && r.ping == Added(rec.ping, DefaultGranularity, ev)
      && multiset(Flatten(r.ping)) == multiset(Flatten(rec.ping)) + multiset{ev}
    ensures IsGamePlay(ev) ==> r == rec.(game := rec.game + [ev])
  {
    if ev.Position? then
      AddedSamples(rec.pos, DefaultGranularity, ev);
      rec.(pos := Added(rec.pos, DefaultGranularity, ev))
    else if ev.Ping? then
      AddedSamples(rec.ping, DefaultGranularity, ev);
      rec.(ping := Added(rec.ping, DefaultGranularity, ev))
    else
      rec.(game := rec.game + [ev])
  }

  /** A sample of the series' own kind keeps a record well-formed. */
  lemma WithSampleOk(rec: CnRecord, ev: GameEvent)
    requires RecordOk(rec)
    requires (ev.Position? || ev.Ping?) ==> ev.timestamp > -DefaultGranularity
    ensures RecordOk(WithSample(rec, ev))
  {
    if ev.Position? {
      AddedKeepsInvariant(rec.pos, DefaultGranularity, ev, IsPosition);
    } else if ev.Ping? {
      AddedKeepsInvariant(rec.ping, DefaultGranularity, ev, IsPing);
    }
  }

  /** `addEvent(ev, cn)`: `cn`'s record, created if need be, takes the event;
      every other record stays as it was. */
  function WithEvent(s: ReaderState, cn: int, ev: GameEvent): (r: ReaderState)
    requires Chains(s.data)
    requires (ev.Position? || ev.Ping?) ==> ev.timestamp > -DefaultGranularity
    ensures Chains(r.data)
    ensures r.spawned == s.spawned && r.maxTs == s.maxTs && r.isPause == s.isPause
    ensures r.data.Keys == s.data.Keys + {cn}
    ensures forall c :: c in s.data && c != cn ==> r.data[c] == s.data[c]
    ensures r.data[cn] == WithSample(Rec(s, cn), ev)
  {
    s.(data := s.data[cn := WithSample(Rec(s, cn), ev)])
  }

  /** `addName(cn, name)`: `name` goes at the end of `cn`'s names. */
  function WithName(s: ReaderState, cn: int, name: string): (r: ReaderState)
    requires Chains(s.data)
    ensures Chains(r.data)
    ensures r.spawned == s.spawned && r.maxTs == s.maxTs && r.isPause == s.isPause
    ensures r.data.Keys == s.data.Keys + {cn}
    ensures forall c :: c in s.data && c != cn ==> r.data[c] == s.data[c]
    ensures r.data[cn] == Rec(s, cn).(names := Rec(s, cn).names + [name])
  {
    var rec := Rec(s, cn);
    s.(data := s.data[cn := rec.(names := rec.names + [name])])
  }

  /** `parseEvent(m)`: first `maxTs` catches up with the message's timestamp,
      then the message takes effect according to its kind. */
  function Step(s: ReaderState, m: Msg): (r: ReaderState)
    requires Wf(s) && Admissible(m)
    ensures Wf(r)
    decreases m, 1
  {
    var s := s.(maxTs := Max(s.maxTs, m.timestamp));
    match m
    case NPauseGame(_, isPause) => s.(isPause := isPause)
    case NWelcome(_, history) => StepAll(s, history)
    case NInitClient(_, cn, name) => WithName(s, cn, name)
    case NSwitchName(_, cn, name) => WithName(s, cn, name)
    case NPos(ts, cn, yaw, pitch, roll, pos, vel) =>
      if s.isPause then s else WithEvent(s, cn, Position(ts, yaw, pitch, roll, pos, vel))
    case NPing(ts, cn, ping) =>
      if s.isPause then s else WithEvent(s, cn, Ping(ts, ping))
    case NShotFx(ts, cn, gun, from, to) => WithEvent(s, cn, Shot(ts, GunName(gun), from, to))
    case NDamage(ts, tcn, acn, damage) =>
      WithEvent(WithEvent(s, acn, Hit(ts, tcn, damage)), tcn, Damage(ts, acn, damage))
    case NDied(ts, tcn, acn) =>
      WithEvent(WithEvent(s, acn, Kill(ts, tcn)), tcn, Died(ts, acn))
    case NSpawn(ts, cn) =>
      var s' := s.(spawned := s.spawned + {cn});
      WithEvent(s', cn, Spawn(ts))
    case NOther(_, _) => s
  }

  /** The messages `ms` processed in order. */
  function StepAll(s: ReaderState, ms: seq<Msg>): (r: ReaderState)
    requires Wf(s) && forall i :: 0 <= i < |ms| ==> Admissible(ms[i])
    ensures Wf(r)
    decreases ms, 0
  {
    if ms == [] then s
    else Step(StepAll(s, ms[..|ms| - 1]), ms[|ms| - 1])
  }

  /** `postProcess()`: only the connections that spawned keep their records. */
  function Finalize(s: ReaderState): (r: ReaderState)
    requires s.spawned <= s.data.Keys
    ensures r.data.Keys == s.spawned
    ensures forall cn :: cn in r.data ==> r.data[cn] == s.data[cn]
    ensures r.spawned == s.spawned && r.maxTs == s.maxTs && r.isPause == s.isPause
  {
    s.(data := map cn | cn in s.spawned :: s.data[cn])
  }

  // ---------------------------------------------------------------------
  // Reference definitions over message trees

  /** The latest timestamp anywhere in `m`, nested messages included. */
  function Latest(m: Msg): int
    decreases m, 1
  {
    match m
    case NWelcome(ts, history) => LatestIn(ts, history)
    case _ => m.timestamp
  }

  /** The latest of `t` and the timestamps anywhere in `ms`. */
  function LatestIn(t: int, ms: seq<Msg>): int
    decreases ms, 0
  {
    if ms == [] then t else Max(LatestIn(t, ms[..|ms| - 1]), Latest(ms[|ms| - 1]))
  }

  /** The connections that `m` spawns, nested messages included. */
  function SpawnsIn(m: Msg): set<int>
    decreases m, 1
  {
    match m
    case NSpawn(_, cn) => {cn}
    case NWelcome(_, history) => SpawnsInAll(history)
    case _ => {}
  }

  function SpawnsInAll(ms: seq<Msg>): set<int>
    decreases ms, 0
  {
    if ms == [] then {} else SpawnsInAll(ms[..|ms| - 1]) + SpawnsIn(ms[|ms| - 1])
  }

  // ---------------------------------------------------------------------
  // Properties of the reader

  /** `maxTs` ends as the latest of its old value and every timestamp in the
      message, at any depth; it never decreases. */
  lemma {:induction false} StepMaxTs(s: ReaderState, m: Msg)
    requires Wf(s) && Admissible(m)
    ensures Step(s, m).maxTs == Max(s.maxTs, Latest(m))
    decreases m, 1
  {
    if m.NWelcome? {
      StepAllMaxTs(s.(maxTs := Max(s.maxTs, m.timestamp)), m.history);
      LatestInFrom(s.maxTs, m.timestamp, m.history);
    }
  }

  lemma {:induction false} StepAllMaxTs(s: ReaderState, ms: seq<Msg>)
    requires Wf(s) && forall i :: 0 <= i < |ms| ==> Admissible(ms[i])
    ensures StepAll(s, ms).maxTs == LatestIn(s.maxTs, ms)
    decreases ms, 0
  {
    if ms != [] {
      var init := ms[..|ms| - 1];
      StepAllMaxTs(s, init);
      StepMaxTs(StepAll(s, init), ms[|ms| - 1]);
    }
  }

  /** Starting the running maximum higher shifts the result accordingly. */
  lemma {:induction false} LatestInFrom(a: int, t: int, ms: seq<Msg>)
    ensures LatestIn(Max(a, t), ms) == Max(a, LatestIn(t, ms))
  {
    if ms != [] {
      LatestInFrom(a, t, ms[..|ms| - 1]);
    }
  }

  /** `N_PAUSEGAME` sets the pause flag and changes nothing else but `maxTs`. */
  lemma StepPause(s: ReaderState, ts: int, isPause: bool)
    requires Wf(s)
    ensures var r := Step(s, NPauseGame(ts, isPause));
      r.isPause == isPause && r.data == s.data && r.spawned == s.spawned
  {
  }

  /** A kind the reader does not handle changes nothing but `maxTs`. */
  lemma StepOther(s: ReaderState, ts: int, kind: string)
    requires Wf(s)
    ensures var r := Step(s, NOther(ts, kind));
      r.isPause == s.isPause && r.data == s.data && r.spawned == s.spawned
  {
  }

  /** `N_POS` while paused leaves every record as it was and creates none;
      otherwise it adds exactly one sample to the connection's position
      series and changes nothing else in any record. */
  lemma StepPos(s: ReaderState, m: Msg)
    requires Wf(s) && Admissible(m) && m.NPos?
    ensures var r := Step(s, m);
      && r.spawned == s.spawned
      && (s.isPause ==> r.data == s.data)
      && (!s.isPause ==>
        && r.data.Keys == s.data.Keys + {m.cn}
        && (forall c :: c in s.data && c != m.cn ==> r.data[c] == s.data[c])
        && r.data[m.cn] == Rec(s, m.cn).(pos := r.data[m.cn].pos)
        && r.data[m.cn].pos ==
           Added(Rec(s, m.cn).pos, DefaultGranularity, Position(m.timestamp, m.yaw, m.pitch, m.roll, m.pos, m.vel))
        && multiset(Flatten(r.data[m.cn].pos)) ==
           multiset(Flatten(Rec(s, m.cn).pos)) + multiset{Position(m.timestamp, m.yaw, m.pitch, m.roll, m.pos, m.vel)})
  {
    var s' := s.(maxTs := Max(s.maxTs, m.timestamp));
    assert Rec(s', m.cn) == Rec(s, m.cn);
  }

  /** `N_PING` likewise adds exactly one sample to the ping series. */
  lemma StepPing(s: ReaderState, m: Msg)
    requires Wf(s) && Admissible(m) && m.NPing?
    ensures var r := Step(s, m);
      && r.spawned == s.spawned
      && (s.isPause ==> r.data == s.data)
      && (!s.isPause ==>
        && r.data.Keys == s.data.Keys + {m.cn}
        && (forall c :: c in s.data && c != m.cn ==> r.data[c] == s.data[c])
        && r.data[m.cn] == Rec(s, m.cn).(ping := r.data[m.cn].ping)
        && r.data[m.cn].ping == Added(Rec(s, m.cn).ping, DefaultGranularity, Ping(m.timestamp, m.ping))
        && multiset(Flatten(r.data[m.cn].ping)) ==
           multiset(Flatten(Rec(s, m.cn).ping)) + multiset{Ping(m.timestamp, m.ping)})
  {
    var s' := s.(maxTs := Max(s.maxTs, m.timestamp));
    assert Rec(s', m.cn) == Rec(s, m.cn);
  }

  /** `N_SHOTFX` appends one shot, with the gun's name when the gun number is
      in the table, to the shooter's game list. */
  lemma StepShot(s: ReaderState, m: Msg)
    requires Wf(s) && m.NShotFx?
    ensures var r := Step(s, m);
      && r.spawned == s.spawned
      && r.data.Keys == s.data.Keys + {m.cn}
      && (forall c :: c in s.data && c != m.cn ==> r.data[c] == s.data[c])
      && r.data[m.cn] == Rec(s, m.cn).(game := Rec(s, m.cn).game + [Shot(m.timestamp, GunName(m.gun), m.from, m.to)])
  {
    var s' := s.(maxTs := Max(s.maxTs, m.timestamp));
    assert Rec(s', m.cn) == Rec(s, m.cn);
  }

  /** `N_DAMAGE` is recorded twice: a hit on the attacker's list, then the
      damage taken on the target's list. Nothing else changes, frags and
      score included. */
  lemma StepDamage(s: ReaderState, m: Msg)
    requires Wf(s) && m.NDamage?
    ensures var r := Step(s, m);
      var hit, taken := Hit(m.timestamp, m.tcn, m.damage), Damage(m.timestamp, m.acn, m.damage);
      && r.spawned == s.spawned
      && r.data.Keys == s.data.Keys + {m.acn, m.tcn}
      && (forall c :: c in s.data && c != m.acn && c != m.tcn ==> r.data[c] == s.data[c])
      && (m.acn != m.tcn ==>
        && r.data[m.acn] == Rec(s, m.acn).(game := Rec(s, m.acn).game + [hit])
        && r.data[m.tcn] == Rec(s, m.tcn).(game := Rec(s, m.tcn).game + [taken]))
      && (m.acn == m.tcn ==>
        r.data[m.acn] == Rec(s, m.acn).(game := Rec(s, m.acn).game + [hit, taken]))
  {
    var s0 := s.(maxTs := Max(s.maxTs, m.timestamp));
    var hit, taken := Hit(m.timestamp, m.tcn, m.damage), Damage(m.timestamp, m.acn, m.damage);
    assert Rec(s0, m.acn) == Rec(s, m.acn) && Rec(s0, m.tcn) == Rec(s, m.tcn);
    var s1 := WithEvent(s0, m.acn, hit);
    if m.acn == m.tcn {
      assert Rec(s1, m.tcn) == Rec(s, m.acn).(game := Rec(s, m.acn).game + [hit]);
    } else {
      assert Rec(s1, m.tcn) == Rec(s, m.tcn);
    }
  }

  /** `N_DIED` is recorded twice: a kill on the attacker's list, then the
      death on the target's list. */
  lemma StepDied(s: ReaderState, m: Msg)
    requires Wf(s) && m.NDied?
    ensures var r := Step(s, m);
      var kill, died := Kill(m.timestamp, m.tcn), Died(m.timestamp, m.acn);
      && r.spawned == s.spawned
      && r.data.Keys == s.data.Keys + {m.acn, m.tcn}
      && (forall c :: c in s.data && c != m.acn && c != m.tcn ==> r.data[c] == s.data[c])
      && (m.acn != m.tcn ==>
        && r.data[m.acn] == Rec(s, m.acn).(game := Rec(s, m.acn).game + [kill])
        && r.data[m.tcn] == Rec(s, m.tcn).(game := Rec(s, m.tcn).game + [died]))
      && (m.acn == m.tcn ==>
        r.data[m.acn] == Rec(s, m.acn).(game := Rec(s, m.acn).game + [kill, died]))
  {
    var s0 := s.(maxTs := Max(s.maxTs, m.timestamp));
    var kill, died := Kill(m.timestamp, m.tcn), Died(m.timestamp, m.acn);
    assert Rec(s0, m.acn) == Rec(s, m.acn) && Rec(s0, m.tcn) == Rec(s, m.tcn);
    var s1 := WithEvent(s0, m.acn, kill);
    if m.acn == m.tcn {
      assert Rec(s1, m.tcn) == Rec(s, m.acn).(game := Rec(s, m.acn).game + [kill]);
    } else {
      assert Rec(s1, m.tcn) == Rec(s, m.tcn);
    }
  }

  /** `N_SPAWN` marks the connection as spawned and appends one spawn event
      to its game list. */
  lemma StepSpawn(s: ReaderState, m: Msg)
    requires Wf(s) && m.NSpawn?
    ensures var r := Step(s, m);
      && r.spawned == s.spawned + {m.cn}
      && r.data.Keys == s.data.Keys + {m.cn}
      && (forall c :: c in s.data && c != m.cn ==> r.data[c] == s.data[c])
      && r.data[m.cn] == Rec(s, m.cn).(game := Rec(s, m.cn).game + [Spawn(m.timestamp)])
  {
    var s' := s.(maxTs := Max(s.maxTs, m.timestamp), spawned := s.spawned + {m.cn});
    assert Rec(s', m.cn) == Rec(s, m.cn);
  }

  /** `N_INITCLIENT` and `N_SWITCHNAME` add the name after the earlier ones. */
  lemma StepName(s: ReaderState, m: Msg)
    requires Wf(s) && (m.NInitClient? || m.NSwitchName?)
    ensures var r := Step(s, m);
      && r.spawned == s.spawned
      && r.data.Keys == s.data.Keys + {m.cn}
      && (forall c :: c in s.data && c != m.cn ==> r.data[c] == s.data[c])
      && r.data[m.cn] == Rec(s, m.cn).(names := Rec(s, m.cn).names + [m.name])
  {
    var s' := s.(maxTs := Max(s.maxTs, m.timestamp));
    assert Rec(s', m.cn) == Rec(s, m.cn);
  }

  /** Processing `a` then `b` is processing `a + b`. */
  lemma {:induction false} StepAllConcat(s: ReaderState, a: seq<Msg>, b: seq<Msg>)
    requires Wf(s)
    requires forall i :: 0 <= i < |a| ==> Admissible(a[i])
    requires forall i :: 0 <= i < |b| ==> Admissible(b[i])
    ensures forall i :: 0 <= i < |a + b| ==> Admissible((a + b)[i])
    ensures StepAll(s, a + b) == StepAll(StepAll(s, a), b)
  {
    assert forall i :: 0 <= i < |a + b| ==> Admissible((a + b)[i]) by {
      forall i | 0 <= i < |a + b|
        ensures Admissible((a + b)[i])
      {
        if i < |a| { assert (a + b)[i] == a[i]; } else { assert (a + b)[i] == b[i - |a|]; }
      }
    }
    if b == [] {
      assert a + b == a;
    } else {
      var init := b[..|b| - 1];
      StepAllConcat(s, a, init);
      assert (a + b)[..|a + b| - 1] == a + init;
      assert (a + b)[|a + b| - 1] == b[|b| - 1];
    }
  }

  /** `N_WELCOME` has the effect of its own timestamp followed by each of the
      messages it carries, in order. */
  lemma WelcomeReplays(s: ReaderState, ts: int, history: seq<Msg>, kind: string)
    requires Wf(s) && Admissible(NWelcome(ts, history))
    ensures forall i :: 0 <= i < |[NOther(ts, kind)] + history| ==> Admissible(([NOther(ts, kind)] + history)[i])
    ensures Step(s, NWelcome(ts, history)) == StepAll(s, [NOther(ts, kind)] + history)
  {
    var head := [NOther(ts, kind)];
    StepAllConcat(s, head, history);
    assert head[..0] == [];
  }

  /** The spawned set grows by exactly the connections the messages spawn. */
  lemma {:induction false} StepSpawned(s: ReaderState, m: Msg)
    requires Wf(s) && Admissible(m)
    ensures Step(s, m).spawned == s.spawned + SpawnsIn(m)
    decreases m, 1
  {
    var s' := s.(maxTs := Max(s.maxTs, m.timestamp));
    match m
    case NWelcome(_, history) => StepAllSpawned(s', history);
    case NDamage(_, _, _, _) => StepDamage(s, m);
    case NDied(_, _, _) => StepDied(s, m);
    case NSpawn(_, _) => StepSpawn(s, m);
    case NPos(_, _, _, _, _, _, _) => StepPos(s, m);
    case NPing(_, _, _) => StepPing(s, m);
    case NShotFx(_, _, _, _, _) => StepShot(s, m);
    case NInitClient(_, _, _) => StepName(s, m);
    case NSwitchName(_, _, _) => StepName(s, m);
    case NPauseGame(ts, isPause) => StepPause(s, ts, isPause);
    case NOther(ts, kind) => StepOther(s, ts, kind);
  }

  lemma {:induction false} StepAllSpawned(s: ReaderState, ms: seq<Msg>)
    requires Wf(s) && forall i :: 0 <= i < |ms| ==> Admissible(ms[i])
    ensures StepAll(s, ms).spawned == s.spawned + SpawnsInAll(ms)
    decreases ms, 0
  {
    if ms != [] {
      var init := ms[..|ms| - 1];
      StepAllSpawned(s, init);
      StepSpawned(StepAll(s, init), ms[|ms| - 1]);
    }
  }

  /** After a whole stream and `postProcess`, the connections with records
      are exactly those that spawned somewhere in the stream. */
  lemma FinalConnections(ms: seq<Msg>)
    requires forall i :: 0 <= i < |ms| ==> Admissible(ms[i])
    ensures Finalize(StepAll(Initial(), ms)).data.Keys == SpawnsInAll(ms)
  {
    StepAllSpawned(Initial(), ms);
  }

  // ---------------------------------------------------------------------
  // The invariant

  /** Adding an event keeps every record well-formed. */
  lemma WithEventOk(s: ReaderState, cn: int, ev: GameEvent)
    requires RecordsOk(s.data)
    requires (ev.Position? || ev.Ping?) ==> ev.timestamp > -DefaultGranularity
    ensures RecordsOk(WithEvent(s, cn, ev).data)
  {
    var rec := Rec(s, cn);
    assert RecordOk(rec);
    WithSampleOk(rec, ev);
    var d := WithEvent(s, cn, ev).data;
    forall c | c in d
      ensures RecordOk(d[c])
    {
      if c != cn {
        assert d[c] == s.data[c];
      }
    }
  }

  /** Adding a name keeps every record well-formed. */
  lemma WithNameOk(s: ReaderState, cn: int, name: string)
    requires RecordsOk(s.data)
    ensures RecordsOk(WithName(s, cn, name).data)
  {
    var rec := Rec(s, cn);
    assert RecordOk(rec.(names := rec.names + [name]));
  }

  /** Every message keeps the records well-formed (ping series hold pings,
      position series positions, each in the bucket of its timestamp) and
      every spawned connection recorded. */
  lemma {:induction false} StepInv(s: ReaderState, m: Msg)
    requires Inv(s) && Admissible(m)
    ensures Inv(Step(s, m))
    decreases m, 1
  {
    var s0 := s.(maxTs := Max(s.maxTs, m.timestamp));
    match m
    case NWelcome(_, history) =>
      StepAllInv(s0, history);
    case NPos(ts, cn, yaw, pitch, roll, pos, vel) =>
      WithEventOk(s0, cn, Position(ts, yaw, pitch, roll, pos, vel));
    case NPing(ts, cn, ping) =>
      WithEventOk(s0, cn, Ping(ts, ping));
    case NShotFx(ts, cn, gun, from, to) =>
      WithEventOk(s0, cn, Shot(ts, GunName(gun), from, to));
    case NDamage(ts, tcn, acn, damage) =>
      WithEventOk(s0, acn, Hit(ts, tcn, damage));
      WithEventOk(WithEvent(s0, acn, Hit(ts, tcn, damage)), tcn, Damage(ts, acn, damage));
    case NDied(ts, tcn, acn) =>
      WithEventOk(s0, acn, Kill(ts, tcn));
      WithEventOk(WithEvent(s0, acn, Kill(ts, tcn)), tcn, Died(ts, acn));
    case NSpawn(ts, cn) =>
      WithEventOk(s0.(spawned := s0.spawned + {cn}), cn, Spawn(ts));
    case NInitClient(_, cn, name) =>
      WithNameOk(s0, cn, name);
    case NSwitchName(_, cn, name) =>
      WithNameOk(s0, cn, name);
    case NPauseGame(_, _) =>
    case NOther(_, _) =>
  }

  lemma {:induction false} StepAllInv(s: ReaderState, ms: seq<Msg>)
    requires Inv(s) && forall i :: 0 <= i < |ms| ==> Admissible(ms[i])
    ensures Inv(StepAll(s, ms))
    decreases ms, 0
  {
    if ms != [] {
      var init := ms[..|ms| - 1];
      StepAllInv(s, init);
      StepInv(StepAll(s, init), ms[|ms| - 1]);
    }
  }

  // ---------------------------------------------------------------------
  // The reader object

  /** A second update of the same key replaces the first. */
  lemma Overwrite<K, V>(m: map<K, V>, k: K, a: V, b: V)
    ensures m[k := a][k := b] == m[k := b]
  {
  }

  /** The map that holds exactly the spawned connections' records is the
      one `Finalize` keeps. */
  lemma FinalizedAs(s: ReaderState, kept: map<int, CnRecord>)
    requires s.spawned <= s.data.Keys
    requires kept.Keys == s.spawned
    requires forall cn :: cn in kept ==> kept[cn] == s.data[cn]
    ensures Finalize(s).data == kept
  {
    var f := Finalize(s).data;
    assert f.Keys == kept.Keys;
    assert forall cn :: cn in f ==> f[cn] == kept[cn];
  }

  /** A non-empty set has an element to pick. */
  lemma Inhabited(s: set<int>)
    requires s != {}
    ensures exists x :: x in s
  {
    assert (forall x :: x !in s) ==> s == {};
  }

  /** `GameReader`: decodes a message stream into per-connection records.
      The records are held as values: each update replaces the connection's
      record in `data`. */
  class GameReader {
    var data: map<int, CnRecord>
    var spawned: set<int>
    var maxTs: int
    var isPause: bool

    /** The reader's fields as a value. */
    function State(): ReaderState
      reads this
    {
      ReaderState(data, spawned, maxTs, isPause)
    }

    ghost predicate Valid()
      reads this
    {
      Inv(State())
    }

    constructor ()
      ensures Valid() && State() == Initial()
    {
      data := map[];
      spawned := {};
      maxTs := 0;
      isPause := false;
    }

    /** `getData()`: the decoded game. */
    method GetData() returns (g: GameState)
      requires Valid()
      ensures g.Valid() && g.state == data
    {
      g := GameState(data);
    }

    /** `getCnData(cn)`: the connection's record, created on first use. */
    method GetCnData(cn: int) returns (rec: CnRecord)
      modifies this
      ensures State() == Touch(old(State()), cn)
      ensures cn in data && rec == data[cn]
    {
      if cn in data {
        rec := data[cn];
        assert data[cn := rec] == data;
      } else {
        rec := FreshRecord();
        data := data[cn := rec];
      }
    }

    /** `addEvent(ev, cn)`: the sample goes into the matching series, any
        other event at the end of the game list. */
    method AddEvent(ev: GameEvent, cn: int)
      requires Chains(data)
      requires (ev.Position? || ev.Ping?) ==> ev.timestamp > -DefaultGranularity
      modifies this
      ensures State() == WithEvent(old(State()), cn, ev)
    {
      ghost var s := old(State());
      var rec := GetCnData(cn);
      assert rec == Rec(s, cn) && Chained(rec);
      if ev.Position? {
        rec := rec.(pos := Added(rec.pos, DefaultGranularity, ev));
      } else if ev.Ping? {
        rec := rec.(ping := Added(rec.ping, DefaultGranularity, ev));
      } else {
        rec := rec.(game := rec.game + [ev]);
      }
      assert rec == WithSample(Rec(s, cn), ev);
      data := data[cn := rec];
      Overwrite(s.data, cn, Rec(s, cn), rec);
    }

    /** `addName(cn, name)`. */
    method AddName(cn: int, name: string)
      requires Chains(data)
      modifies this
      ensures State() == WithName(old(State()), cn, name)
    {
      var rec := GetCnData(cn);
      data := data[cn := rec.(names := rec.names + [name])];
    }

    /** `parseEvent(m)`. */
    method ParseEvent(m: Msg)
      requires Valid() && Admissible(m)
      modifies this
      ensures State() == Step(old(State()), m)
      ensures Valid()
      decreases m, 1
    {
      if m.timestamp > maxTs {
        maxTs := m.timestamp;
      }
      ghost var s := State();
      assert s == old(State()).(maxTs := Max(old(maxTs), m.timestamp));
      match m {
      case NPauseGame(_, p) =>
        isPause := p;
      case NWelcome(_, history) =>
        ParseAll(history);
        assert Step(old(State()), m) == StepAll(s, history);
      case NInitClient(_, cn, name) =>
        AddName(cn, name);
        assert Step(old(State()), m) == WithName(s, cn, name);
      case NSwitchName(_, cn, name) =>
        AddName(cn, name);
        assert Step(old(State()), m) == WithName(s, cn, name);
      case NPos(ts, cn, yaw, pitch, roll, pos, vel) =>
        if !isPause {
          AddEvent(Position(ts, yaw, pitch, roll, pos, vel), cn);
        }
      case NPing(ts, cn, ping) =>
        if !isPause {
          AddEvent(Ping(ts, ping), cn);
        }
      case NShotFx(ts, cn, gun, from, to) =>
        AddEvent(Shot(ts, GunName(gun), from, to), cn);
        assert Step(old(State()), m) == WithEvent(s, cn, Shot(ts, GunName(gun), from, to));
      case NDamage(ts, tcn, acn, damage) =>
        AddEvent(Hit(ts, tcn, damage), acn);
        ghost var s1 := State();
        AddEvent(Damage(ts, acn, damage), tcn);
        assert s1 == WithEvent(s, acn, Hit(ts, tcn, damage));
      case NDied(ts, tcn, acn) =>
        AddEvent(Kill(ts, tcn), acn);
        ghost var s1 := State();
        AddEvent(Died(ts, acn), tcn);
        assert s1 == WithEvent(s, acn, Kill(ts, tcn));
      case NSpawn(ts, cn) =>
        spawned := spawned + {cn};
        AddEvent(Spawn(ts), cn);
      case NOther(_, _) =>
      }
      StepInv(old(State()), m);
    }

    /** `postProcess()`: keep only the records of connections that spawned. */
    method PostProcess()
      requires Valid()
      modifies this
      ensures State() == Finalize(old(State()))
      ensures Valid()
    {
      var gameData: map<int, CnRecord> := map[];
      var rest := spawned;
      while rest != {}
        invariant State() == old(State())
        invariant rest <= spawned
        invariant gameData.Keys == spawned - rest
        invariant forall cn :: cn in gameData ==> gameData[cn] == data[cn]
        decreases |rest|
      {
        Inhabited(rest);
        var cn :| cn in rest;
        gameData := gameData[cn := data[cn]];
        rest := rest - {cn};
      }
      FinalizedAs(State(), gameData);
      data := gameData;
    }

    /** `parseEvent` on each message of `ms` in order: the loop of the
        `N_WELCOME` case and of the stream consumer. */
    method ParseAll(ms: seq<Msg>)
      requires Valid() && forall i :: 0 <= i < |ms| ==> Admissible(ms[i])
      modifies this
      ensures Valid()
      ensures State() == StepAll(old(State()), ms)
      decreases ms, 0
    {
      ghost var s0 := State();
      var i := 0;
      while i < |ms|
        invariant 0 <= i <= |ms|
        invariant Valid()
        invariant State() == StepAll(s0, ms[..i])
      {
        assert ms[..i + 1][..i] == ms[..i];
        ParseEvent(ms[i]);
        i := i + 1;
      }
      assert ms[..i] == ms;
    }

    /** The stream consumer of `getStreamConsumer()`: every message in
        order, then `postProcess()`. */
    method Consume(ms: seq<Msg>)
      requires Valid() && forall i :: 0 <= i < |ms| ==> Admissible(ms[i])
      modifies this
      ensures Valid()
      ensures State() == Finalize(StepAll(old(State()), ms))
    {
      ParseAll(ms);
      PostProcess();
    }
  }
}
