/** The records the remote data service exchanges with the site.  Every `bigint`
    of the service interface is an unbounded `int` here, and an optional field
    (`field?: T`) is an `Option<T>`. */
module Backend {

  import opened Optional

  /** A roster entry; `number` (the jersey number) is its identity key. */
  datatype Player = Player(
    age: int,
    weight: string,
    height: string,
    maxPrepsUrl: Option<string>,
    name: string,
    hometown: string,
    number: int,
    eliteProspectsUrl: Option<string>,
    photo: string,
    position: string)

  datatype Game = Game(
    id: int,
    isCompleted: bool,
    date: string,
    isHome: bool,
    homeScore: Option<int>,
    awayScore: Option<int>,
    location: string,
    opponent: string)

  /** The team's season record, a singleton on the service side. */
  datatype TeamInfo = TeamInfo(
    leaguePosition: int,
    wins: int,
    losses: int,
    overtimeLosses: int,
    points: int)

  /** Statistics of one player, joined to the roster by `playerNumber`. */
  datatype PlayerStats = PlayerStats(
    gamesPlayed: int,
    assists: int,
    goals: int,
    playerNumber: int)

  datatype NewsPost = NewsPost(
    id: int,
    title: string,
    body: string,
    date: string)
}
