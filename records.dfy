// The per-connection record and the two bookkeeping classes of src/types.ts.

module Records {
  import opened Types
  import opened EvSeqs

  /** The contents of one connection's `CnData` at a moment: its two time
      series (as bucket lists), its game-play events, counters, and the
      names and teams it has had. */
  datatype CnRecord = CnRecord(
    ping: seq<Bucket>,
    pos: seq<Bucket>,
    game: seq<GamePlayEvent>,
    frags: int,
    score: int,
    names: seq<string>,
    teams: seq<string>)

  /** What `new CnData()` holds: two fresh series, no events, zero counters,
      no names and no teams. */
  function FreshRecord(): (r: CnRecord)
    ensures r.ping == [Bucket(0, [])] && r.pos == [Bucket(0, [])]
    ensures r.game == [] && r.names == [] && r.teams == []
    ensures r.frags == 0 && r.score == 0
    ensures Flatten(r.ping) == [] && Flatten(r.pos) == []
  {
    var empty := [Bucket(0, [])];
    assert Flatten(empty) == Flatten(empty[..0]) + [];
    CnRecord(empty, empty, [], 0, 0, [], [])
  }

  /** A record as `CnData` keeps it: both series are well-formed with the
      default granularity, the ping series holds only pings and the position
      series only positions. */
  ghost predicate RecordOk(r: CnRecord) {
    SeriesOk(r.ping, r.pos)
  }

  /** The condition of `RecordOk` on the two series alone. */
  ghost predicate SeriesOk(ping: seq<Bucket>, pos: seq<Bucket>) {
    && Chain(ping, DefaultGranularity) && Chain(pos, DefaultGranularity)
    && Placed(ping, DefaultGranularity) && Placed(pos, DefaultGranularity)
    && AllSatisfy(ping, IsPing) && AllSatisfy(pos, IsPosition)
  }

  /** Both series have their chain of buckets, which is what `add` relies on. */
  ghost predicate Chained(r: CnRecord) {
    Chain(r.ping, DefaultGranularity) && Chain(r.pos, DefaultGranularity)
  }

  /** `CnData`: everything recorded about one connection. */
  class CnData {
    const ping: EvSeq
    const pos: EvSeq
    var game: seq<GamePlayEvent>
    var frags: int
    var score: int
    var names: seq<string>
    var teams: seq<string>

    ghost predicate Valid()
      reads this, ping, pos
    {
      && ping != pos
      && ping.granularity == DefaultGranularity && pos.granularity == DefaultGranularity
      && RecordOk(Record())
    }

    /** The record's current contents as a value. */
    function Record(): CnRecord
      reads this, ping, pos
    {
      CnRecord(ping.events, pos.events, game, frags, score, names, teams)
    }

    /** `new CnData()`: the record of a connection seen for the first time. */
    constructor ()
      ensures Valid() && fresh(ping) && fresh(pos)
      ensures Record() == FreshRecord()
    {
      ping := new EvSeq(DefaultGranularity);
      pos := new EvSeq(DefaultGranularity);
      game := [];
      frags := 0;
      score := 0;
      names := [];
      teams := [];
    }
  }

  /** `TeamInfo`: a team's frags, score and players. */
  class TeamInfo {
    var frags: int
    var players: set<string>
    var score: int

    constructor ()
      ensures frags == 0 && score == 0 && players == {}
    {
      frags := 0;
      players := {};
      score := 0;
    }
  }

  /** `GameMeta`: the description of a recorded game. The source's field
      `map` is `mapName` here, `map` being a Dafny keyword. */
  class GameMeta {
    var maxTs: int
    var mapName: string
    var mode: string
    var filename: string
    var teams: map<string, TeamInfo>

    constructor ()
      ensures maxTs == 0 && mapName == "" && mode == "" && filename == ""
      ensures teams == map[]
    {
      maxTs := 0;
      mapName := "";
      mode := "";
      filename := "";
      teams := map[];
    }
  }
}
