/** The data hooks of the site: the read queries with their cache keys and
    their fallbacks when no service connection exists yet, the arguments the
    write hooks send, and which cached queries each write marks stale once
    it has succeeded. */
module Queries {

  import opened Optional
  import B = Backend
  import Text
  import Sorting

  /** The first element of every query key in use; an invalidation filter is
      a one-element key and matches every key that starts with it. */
  datatype Root =
    | Players | PlayerStats | AllGames | UpcomingGames | CompletedGames
    | AllNews | LatestNews | TeamInfo

  /** A query key: its root followed by the query's arguments. */
  datatype QueryKey = QueryKey(root: Root, args: seq<string>)

  /** The read hooks. */
  datatype Query =
    | PlayersQuery | UpcomingGamesQuery | CompletedGamesQuery | AllGamesQuery
    | TeamInfoQuery | LatestNewsQuery(count: int) | AllNewsQuery | PlayerStatsQuery

  /** The count `useLatestNews` asks for when given none. */
  const DefaultLatestCount: int := 2

  function KeyOf(q: Query): (k: QueryKey)
    ensures q.LatestNewsQuery? <==> k.root == LatestNews
    ensures q.LatestNewsQuery? ==> k.args == [Text.IntToString(q.count)]
    ensures !q.LatestNewsQuery? ==> k.args == []
  {
    match q
    case PlayersQuery => QueryKey(Players, [])
    case UpcomingGamesQuery => QueryKey(UpcomingGames, [])
    case CompletedGamesQuery => QueryKey(CompletedGames, [])
    case AllGamesQuery => QueryKey(AllGames, [])
    case TeamInfoQuery => QueryKey(TeamInfo, [])
    case LatestNewsQuery(count) => QueryKey(LatestNews, [Text.IntToString(count)])
    case AllNewsQuery => QueryKey(AllNews, [])
    case PlayerStatsQuery => QueryKey(PlayerStats, [])
  }

  /** `useLatestNews()` without a count reads the key `["latestNews", "2"]`. */
  lemma DefaultLatestKey()
    ensures KeyOf(LatestNewsQuery(DefaultLatestCount)) == QueryKey(LatestNews, ["2"])
  {
  }

  /** Distinct queries never share a cache entry. */
  lemma KeyOfInjective(q1: Query, q2: Query)
    ensures KeyOf(q1) == KeyOf(q2) ==> q1 == q2
  {
    if KeyOf(q1) == KeyOf(q2) && q1.LatestNewsQuery? {
      Text.IntToStringInjective(q1.count, q2.count);
    }
  }

  /** What the remote service currently answers to each read. */
  datatype Service = Service(
    players: seq<B.Player>,
    upcomingGames: seq<B.Game>,
    completedGames: seq<B.Game>,
    games: seq<B.Game>,
    teamInfo: B.TeamInfo,
    newsPosts: seq<B.NewsPost>,
    latestNews: int -> seq<B.NewsPost>,
    playerStats: seq<B.PlayerStats>)

  /** A cached query result. */
  datatype Data =
    | PlayerList(players: seq<B.Player>)
    | GameList(games: seq<B.Game>)
    | Team(info: B.TeamInfo)
    | NewsList(posts: seq<B.NewsPost>)
    | StatsList(stats: seq<B.PlayerStats>)

  /** The shape of data each query yields. */
  predicate Fits(q: Query, d: Data) {
    match q
    case PlayersQuery => d.PlayerList?
    case UpcomingGamesQuery | CompletedGamesQuery | AllGamesQuery => d.GameList?
    case TeamInfoQuery => d.Team?
    case LatestNewsQuery(_) | AllNewsQuery => d.NewsList?
    case PlayerStatsQuery => d.StatsList?
  }

  /** The team record in which every counter is zero. */
  const ZeroTeamInfo: B.TeamInfo := B.TeamInfo(0, 0, 0, 0, 0)

  /** Data that holds nothing: an empty list, or the all-zero team record. */
  predicate IsPlaceholder(d: Data) {
    match d
    case PlayerList(ps) => ps == []
    case GameList(gs) => gs == []
    case Team(info) => info == ZeroTeamInfo
    case NewsList(ns) => ns == []
    case StatsList(ss) => ss == []
  }

  /** The roster in ascending jersey order: a stable sort of a copy of the
      service's list by `number`. */
  function RosterOrder(players: seq<B.Player>): (r: seq<B.Player>)
    ensures multiset(r) == multiset(players)
    ensures forall i, j :: 0 <= i < j < |r| ==> r[i].number <= r[j].number
  {
    Sorting.SortBy(players, (p: B.Player) => p.number)
  }

  /** Players sharing a jersey number keep the order the service gave them. */
  lemma RosterOrderStable(players: seq<B.Player>, n: int)
    ensures Sorting.WithKey(RosterOrder(players), (p: B.Player) => p.number, n)
         == Sorting.WithKey(players, (p: B.Player) => p.number, n)
  {
    Sorting.SortByStable(players, (p: B.Player) => p.number, n);
  }

  /** The result of running the query function of `q`: without a service
      connection every list is empty and the team record is all zeros. */
  function Fetch(q: Query, actor: Option<Service>): (d: Data)
    ensures Fits(q, d)
    ensures actor.None? ==> IsPlaceholder(d)
    ensures actor.Some? && q.PlayersQuery? ==>
      d.players == RosterOrder(actor.value.players)
  {
    match actor
    case None =>
      (match q
       case PlayersQuery => PlayerList([])
       case UpcomingGamesQuery | CompletedGamesQuery | AllGamesQuery => GameList([])
       case TeamInfoQuery => Team(ZeroTeamInfo)
       case LatestNewsQuery(_) | AllNewsQuery => NewsList([])
       case PlayerStatsQuery => StatsList([]))
    case Some(service) =>
      (match q
       case PlayersQuery => PlayerList(RosterOrder(service.players))
       case UpcomingGamesQuery => GameList(service.upcomingGames)
       case CompletedGamesQuery => GameList(service.completedGames)
       case AllGamesQuery => GameList(service.games)
       case TeamInfoQuery => Team(service.teamInfo)
       case LatestNewsQuery(count) => NewsList(service.latestNews(count))
       case AllNewsQuery => NewsList(service.newsPosts)
       case PlayerStatsQuery => StatsList(service.playerStats))
  }

  /** `s.trim() || null`: an optional link is sent as null when nothing but
      whitespace was entered, and trimmed otherwise. */
  function NormalizeUrl(s: string): (r: Option<string>)
    ensures r.None? <==> Text.AllWhitespace(s)
    ensures r.Some? ==> r.value == Text.Trim(s) && r.value != []
  {
    var t := Text.Trim(s);
    if t == [] then None else Some(t)
  }

  /** Trimming a link before handing it over changes nothing that is sent. */
  lemma NormalizeTrimmedUrl(s: string)
    ensures NormalizeUrl(Text.Trim(s)) == NormalizeUrl(s)
  {
    Text.TrimIdempotent(s);
  }

  /** The player fields the add and update hooks receive. */
  datatype PlayerInput = PlayerInput(
    number: int, name: string, position: string, photo: string,
    height: string, weight: string, age: int, hometown: string,
    maxPrepsUrl: string, eliteProspectsUrl: string)

  /** The player record the add and update hooks hand to the service. */
  function ServicePlayer(p: PlayerInput): (r: B.Player)
    ensures r.number == p.number && r.name == p.name && r.position == p.position
    ensures r.photo == p.photo && r.height == p.height && r.weight == p.weight
    ensures r.age == p.age && r.hometown == p.hometown
    ensures r.maxPrepsUrl == NormalizeUrl(p.maxPrepsUrl)
    ensures r.eliteProspectsUrl == NormalizeUrl(p.eliteProspectsUrl)
  {
    B.Player(p.age, p.weight, p.height, NormalizeUrl(p.maxPrepsUrl), p.name,
             p.hometown, p.number, NormalizeUrl(p.eliteProspectsUrl), p.photo, p.position)
  }

  /** The variables of a write hook; every write carries the credential the
      caller typed in, and the service alone decides whether it is valid. */
  datatype Request =
    | AddPlayerRequest(player: PlayerInput, password: string)
    | UpdatePlayerRequest(player: PlayerInput, password: string)
    | SetPlayerStatsRequest(playerNumber: int, goals: int, assists: int, gamesPlayed: int, password: string)
    | RemovePlayerRequest(number: int, password: string)
    | AddGameRequest(date: string, opponent: string, location: string, isHome: bool, password: string)
    | UpdateGameScoresRequest(id: int, homeScore: int, awayScore: int, isCompleted: bool, password: string)
    | RemoveGameRequest(id: int, password: string)
    | AddNewsPostRequest(title: string, body: string, date: string, password: string)
    | UpdateNewsPostRequest(id: int, title: string, body: string, date: string, password: string)
    | RemoveNewsPostRequest(id: int, password: string)
    | UpdateTeamInfoRequest(wins: int, losses: int, overtimeLosses: int, points: int, leaguePosition: int, password: string)

  /** The write hooks. */
  datatype Mutation =
    | AddPlayer | UpdatePlayer | RemovePlayer | SetPlayerStats
    | AddGame | UpdateGameScores | RemoveGame
    | AddNewsPost | UpdateNewsPost | RemoveNewsPost
    | UpdateTeamInfo

  function KindOf(r: Request): Mutation {
    match r
    case AddPlayerRequest(_, _) => AddPlayer
    case UpdatePlayerRequest(_, _) => UpdatePlayer
    case SetPlayerStatsRequest(_, _, _, _, _) => SetPlayerStats
    case RemovePlayerRequest(_, _) => RemovePlayer
    case AddGameRequest(_, _, _, _, _) => AddGame
    case UpdateGameScoresRequest(_, _, _, _, _) => UpdateGameScores
    case RemoveGameRequest(_, _) => RemoveGame
    case AddNewsPostRequest(_, _, _, _) => AddNewsPost
    case UpdateNewsPostRequest(_, _, _, _, _) => UpdateNewsPost
    case RemoveNewsPostRequest(_, _) => RemoveNewsPost
    case UpdateTeamInfoRequest(_, _, _, _, _, _) => UpdateTeamInfo
  }

  /** The service-side collection a read or write is about. */
  datatype Collection = PlayerCollection | StatsCollection | GameCollection | NewsCollection | TeamRecord

  function Writes(m: Mutation): Collection {
    match m
    case AddPlayer | UpdatePlayer | RemovePlayer => PlayerCollection
    case SetPlayerStats => StatsCollection
    case AddGame | UpdateGameScores | RemoveGame => GameCollection
    case AddNewsPost | UpdateNewsPost | RemoveNewsPost => NewsCollection
    case UpdateTeamInfo => TeamRecord
  }

  function ReadsFrom(root: Root): Collection {
    match root
    case Players => PlayerCollection
    case PlayerStats => StatsCollection
    case AllGames | UpcomingGames | CompletedGames => GameCollection
    case AllNews | LatestNews => NewsCollection
    case TeamInfo => TeamRecord
  }

  /** Two service states that hold the same contents in collection `c`. */
  ghost predicate SameCollection(s1: Service, s2: Service, c: Collection) {
    match c
    case PlayerCollection => s1.players == s2.players
    case StatsCollection => s1.playerStats == s2.playerStats
    case GameCollection =>
      s1.upcomingGames == s2.upcomingGames && s1.completedGames == s2.completedGames && s1.games == s2.games
    case NewsCollection => s1.newsPosts == s2.newsPosts && forall n :: s1.latestNews(n) == s2.latestNews(n)
    case TeamRecord => s1.teamInfo == s2.teamInfo
  }

  /** A read depends on nothing but the collection its key's root reads
      from: services that agree on that collection answer it alike, so a
      write to another collection cannot change what it returns. */
  lemma FetchReadsOnlyItsCollection(q: Query, s1: Service, s2: Service)
    requires SameCollection(s1, s2, ReadsFrom(KeyOf(q).root))
    ensures Fetch(q, Some(s1)) == Fetch(q, Some(s2))
  {
  }

  /** The filters a write hook invalidates on success: exactly the roots of
      the queries that read the collection it writes. */
  function Invalidates(m: Mutation): (roots: set<Root>)
    ensures forall root :: root in roots <==> ReadsFrom(root) == Writes(m)
  {
    match m
    case AddPlayer | UpdatePlayer | RemovePlayer => {Players}
    case SetPlayerStats => {PlayerStats}
    case AddGame | UpdateGameScores | RemoveGame => {AllGames, UpcomingGames, CompletedGames}
    case AddNewsPost | UpdateNewsPost | RemoveNewsPost => {AllNews, LatestNews}
    case UpdateTeamInfo => {TeamInfo}
  }

  /** The cached keys a filter on `root` matches. */
  function Matching(cached: set<QueryKey>, root: Root): (ks: set<QueryKey>)
    ensures forall k :: k in ks <==> k in cached && k.root == root
  {
    set k | k in cached && k.root == root
  }

  /** The stale keys after a write finished: on success, every cached key
      reading the collection the write touched is added; on failure nothing
      changes. */
  function StaleAfter(stale: set<QueryKey>, cached: set<QueryKey>, m: Mutation, succeeded: bool): (r: set<QueryKey>)
    ensures !succeeded ==> r == stale
    ensures succeeded ==> forall k :: k in r <==> k in stale || (k in cached && ReadsFrom(k.root) == Writes(m))
  {
    if succeeded then stale + set k | k in cached && k.root in Invalidates(m) else stale
  }

  /** Invalidation only ever marks keys that are cached: if every stale key
      has a stored result before a write, it still has one afterwards. */
  lemma StaleAfterStaysCached(stale: set<QueryKey>, cached: set<QueryKey>, m: Mutation, succeeded: bool)
    requires stale <= cached
    ensures StaleAfter(stale, cached, m, succeeded) <= cached
  {
  }

  /** A write invalidating one, two or three roots adds exactly the keys
      each of them matches. */
  lemma StaleAfterOneRoot(stale: set<QueryKey>, cached: set<QueryKey>, m: Mutation, r1: Root)
    requires Invalidates(m) == {r1}
    ensures StaleAfter(stale, cached, m, true) == stale + Matching(cached, r1)
  {
  }

  lemma StaleAfterTwoRoots(stale: set<QueryKey>, cached: set<QueryKey>, m: Mutation, r1: Root, r2: Root)
    requires Invalidates(m) == {r1, r2}
    ensures StaleAfter(stale, cached, m, true) == stale + Matching(cached, r1) + Matching(cached, r2)
  {
  }

  lemma StaleAfterThreeRoots(stale: set<QueryKey>, cached: set<QueryKey>, m: Mutation, r1: Root, r2: Root, r3: Root)
    requires Invalidates(m) == {r1, r2, r3}
    ensures StaleAfter(stale, cached, m, true)
         == stale + Matching(cached, r1) + Matching(cached, r2) + Matching(cached, r3)
  {
  }

  /** A news write marks every cached latest-news key stale, whatever count
      it was asked with. */
  lemma NewsWriteCoversEveryCount(stale: set<QueryKey>, cached: set<QueryKey>, m: Mutation, count: int)
    requires Writes(m) == NewsCollection
    requires KeyOf(LatestNewsQuery(count)) in cached
    ensures KeyOf(LatestNewsQuery(count)) in StaleAfter(stale, cached, m, true)
    ensures KeyOf(AllNewsQuery) in cached ==> KeyOf(AllNewsQuery) in StaleAfter(stale, cached, m, true)
  {
  }

  /** Repeating a successful write's invalidation changes nothing more. */
  lemma StaleAfterIdempotent(stale: set<QueryKey>, cached: set<QueryKey>, m: Mutation)
    ensures StaleAfter(StaleAfter(stale, cached, m, true), cached, m, true)
         == StaleAfter(stale, cached, m, true)
  {
  }

  /** Writes to different collections mark disjoint sets of keys. */
  lemma InvalidationsDisjoint(m1: Mutation, m2: Mutation)
    requires Writes(m1) != Writes(m2)
    ensures Invalidates(m1) * Invalidates(m2) == {}
  {
  }

  /** The query cache: the stored result of every query that has run, and the
      keys whose result is marked stale. */
  class QueryCache {
    var entries: map<QueryKey, Data>
    var stale: set<QueryKey>

    /** Only keys with a stored result can be stale. */
    ghost predicate Valid()
      reads this
    {
      stale <= entries.Keys
    }

    constructor ()
      ensures Valid() && entries == map[] && stale == {}
    {
      entries := map[];
      stale := {};
    }

    /** A fetch for `q` completed: its result is stored and no longer stale.
        Every read is enabled only while a service connection exists, so the
        query function's no-connection fallback never reaches the cache. */
    method Store(q: Query, actor: Option<Service>)
      requires actor.Some?
      requires Valid()
      modifies this
      ensures Valid()
      ensures entries == old(entries)[KeyOf(q) := Fetch(q, actor)]
      ensures stale == old(stale) - {KeyOf(q)}
    {
      entries := entries[KeyOf(q) := Fetch(q, actor)];
      stale := stale - {KeyOf(q)};
    }

    /** `invalidateQueries({ queryKey: [root] })`: every cached key starting
      with `root` is marked stale; no stored result changes. */
    method Invalidate(root: Root)
      requires Valid()
      modifies this
      ensures Valid()
      ensures entries == old(entries)
      ensures stale == old(stale) + Matching(entries.Keys, root)
    {
      stale := stale + Matching(entries.Keys, root);
    }

    /** The `onSuccess` of a write hook, run only if the write succeeded. */
    method ApplyMutation(m: Mutation, succeeded: bool)
      requires Valid()
      modifies this
      ensures Valid()
      ensures entries == old(entries)
      ensures stale == StaleAfter(old(stale), old(entries).Keys, m, succeeded)
    {
      if succeeded {
        match m
        case AddPlayer | UpdatePlayer | RemovePlayer =>
          Invalidate(Players);
          StaleAfterOneRoot(old(stale), old(entries).Keys, m, Players);
        case SetPlayerStats =>
          Invalidate(PlayerStats);
          StaleAfterOneRoot(old(stale), old(entries).Keys, m, PlayerStats);
        case AddGame | UpdateGameScores | RemoveGame =>
          Invalidate(AllGames);
          Invalidate(UpcomingGames);
          Invalidate(CompletedGames);
          StaleAfterThreeRoots(old(stale), old(entries).Keys, m, AllGames, UpcomingGames, CompletedGames);
        case AddNewsPost | UpdateNewsPost | RemoveNewsPost =>
          Invalidate(AllNews);
          Invalidate(LatestNews);
          StaleAfterTwoRoots(old(stale), old(entries).Keys, m, AllNews, LatestNews);
        case UpdateTeamInfo =>
          Invalidate(TeamInfo);
          StaleAfterOneRoot(old(stale), old(entries).Keys, m, TeamInfo);
      }
    }
  }
}
