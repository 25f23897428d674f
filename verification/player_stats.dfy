/** The player statistics page: one row per roster player joined with that
    player's statistics, ranked by a chosen column, and the badge colour of a
    player's position. */
module PlayerStatsView {

  import opened Optional
  import B = Backend
  import Text
  import Sorting
  import Queries

  /** The sortable columns. */
  datatype SortKey = Pts | Goals | Assists | Gp

  /** The column the page ranks by when it opens. */
  const DefaultSortKey: SortKey := Pts

  datatype PlayerRow = PlayerRow(player: B.Player, gp: int, goals: int, assists: int, pts: int)

  function Stat(row: PlayerRow, k: SortKey): int {
    match k
    case Pts => row.pts
    case Goals => row.goals
    case Assists => row.assists
    case Gp => row.gp
  }

  /** `j` is the last position of `stats` holding its player number, and that
      number renders as `key`. */
  ghost predicate LastFor(stats: seq<B.PlayerStats>, key: string, j: int) {
    && 0 <= j < |stats| && Text.IntToString(stats[j].playerNumber) == key
    && forall i :: j < i < |stats| ==> stats[i].playerNumber != stats[j].playerNumber
  }

  /** The lookup table built from the statistics list, keyed by the decimal
      rendering of the player number; a later entry for the same number
      replaces an earlier one. */
  function StatsIndex(stats: seq<B.PlayerStats>): (m: map<string, B.PlayerStats>)
    ensures forall i :: 0 <= i < |stats| ==> Text.IntToString(stats[i].playerNumber) in m
    ensures forall key :: key in m ==> exists j :: LastFor(stats, key, j) && m[key] == stats[j]
  {
    if stats == [] then map[]
    else
      var init, last := stats[..|stats| - 1], stats[|stats| - 1];
      var m0 := StatsIndex(init);
      var m := m0[Text.IntToString(last.playerNumber) := last];
      StatsIndexStep(init, last, stats, m0, m);
      m
  }

  lemma StatsIndexStep(init: seq<B.PlayerStats>, last: B.PlayerStats, stats: seq<B.PlayerStats>,
                       m0: map<string, B.PlayerStats>, m: map<string, B.PlayerStats>)
    requires stats != [] && init == stats[..|stats| - 1] && last == stats[|stats| - 1]
    requires m == m0[Text.IntToString(last.playerNumber) := last]
    requires forall i :: 0 <= i < |init| ==> Text.IntToString(init[i].playerNumber) in m0
    requires forall key :: key in m0 ==> exists j :: LastFor(init, key, j) && m0[key] == init[j]
    ensures forall i :: 0 <= i < |stats| ==> Text.IntToString(stats[i].playerNumber) in m
    ensures forall key :: key in m ==> exists j :: LastFor(stats, key, j) && m[key] == stats[j]
  {
    assert stats == init + [last];
    forall i | 0 <= i < |stats| ensures Text.IntToString(stats[i].playerNumber) in m {
      if i < |init| {
        assert stats[i] == init[i];
      }
    }
    forall key | key in m ensures exists j :: LastFor(stats, key, j) && m[key] == stats[j] {
      StatsIndexStepKey(init, last, stats, m0, m, key);
    }
  }

  lemma StatsIndexStepKey(init: seq<B.PlayerStats>, last: B.PlayerStats, stats: seq<B.PlayerStats>,
                          m0: map<string, B.PlayerStats>, m: map<string, B.PlayerStats>, key: string)
    requires stats == init + [last]
    requires m == m0[Text.IntToString(last.playerNumber) := last]
    requires forall key :: key in m0 ==> exists j :: LastFor(init, key, j) && m0[key] == init[j]
    requires key in m
    ensures exists j :: LastFor(stats, key, j) && m[key] == stats[j]
  {
    if key == Text.IntToString(last.playerNumber) {
      assert LastFor(stats, key, |stats| - 1);
    } else {
      var j :| LastFor(init, key, j) && m0[key] == init[j];
      assert stats[j] == init[j];
      assert LastFor(stats, key, j);
    }
  }

  /** Looking a player number up finds the last statistics entry with exactly
      that number, wherever it sits in the list. */
  lemma LookupFindsLastEntry(stats: seq<B.PlayerStats>, n: int, j: int)
    requires 0 <= j < |stats| && stats[j].playerNumber == n
    requires forall i :: j < i < |stats| ==> stats[i].playerNumber != n
    ensures Text.IntToString(n) in StatsIndex(stats)
    ensures StatsIndex(stats)[Text.IntToString(n)] == stats[j]
  {
    var m, key := StatsIndex(stats), Text.IntToString(n);
    var k :| LastFor(stats, key, k) && m[key] == stats[k];
    Text.IntToStringInjective(stats[k].playerNumber, n);
  }

  /** A number no statistics entry carries is not in the table. */
  lemma LookupMissesAbsentNumber(stats: seq<B.PlayerStats>, n: int)
    requires forall i :: 0 <= i < |stats| ==> stats[i].playerNumber != n
    ensures Text.IntToString(n) !in StatsIndex(stats)
  {
    var m, key := StatsIndex(stats), Text.IntToString(n);
    if key in m {
      var j :| LastFor(stats, key, j) && m[key] == stats[j];
      Text.IntToStringInjective(stats[j].playerNumber, n);
    }
  }

  /** The row of one player: its statistics when the table has an entry for
      its number, zeros otherwise; points are goals plus assists. */
  function BuildRow(p: B.Player, m: map<string, B.PlayerStats>): (r: PlayerRow)
    ensures r.player == p && r.pts == r.goals + r.assists
    ensures Text.IntToString(p.number) !in m ==> r.gp == 0 && r.goals == 0 && r.assists == 0
    ensures Text.IntToString(p.number) in m ==>
      var s := m[Text.IntToString(p.number)];
      r.gp == s.gamesPlayed && r.goals == s.goals && r.assists == s.assists
  {
    var key := Text.IntToString(p.number);
    var goals := if key in m then m[key].goals else 0;
    var assists := if key in m then m[key].assists else 0;
    var gp := if key in m then m[key].gamesPlayed else 0;
    PlayerRow(p, gp, goals, assists, goals + assists)
  }

  /** A player with no statistics entry gets a row of zeros. */
  lemma RowWithoutStats(p: B.Player, stats: seq<B.PlayerStats>)
    requires forall i :: 0 <= i < |stats| ==> stats[i].playerNumber != p.number
    ensures var r := BuildRow(p, StatsIndex(stats));
      r.gp == 0 && r.goals == 0 && r.assists == 0 && r.pts == 0
  {
    LookupMissesAbsentNumber(stats, p.number);
  }

  /** Otherwise the row shows the last entry carrying the player's number,
      with points equal to goals plus assists. */
  lemma RowWithStats(p: B.Player, stats: seq<B.PlayerStats>, j: int)
    requires 0 <= j < |stats| && stats[j].playerNumber == p.number
    requires forall i :: j < i < |stats| ==> stats[i].playerNumber != p.number
    ensures var r := BuildRow(p, StatsIndex(stats));
      && r.gp == stats[j].gamesPlayed && r.goals == stats[j].goals && r.assists == stats[j].assists
      && r.pts == stats[j].goals + stats[j].assists
  {
    LookupFindsLastEntry(stats, p.number, j);
  }

  /** One row per player, in roster order. */
  function BuildRows(players: seq<B.Player>, m: map<string, B.PlayerStats>): (rows: seq<PlayerRow>)
    ensures |rows| == |players|
    ensures forall i :: 0 <= i < |players| ==> rows[i] == BuildRow(players[i], m)
  {
    seq(|players|, i requires 0 <= i < |players| => BuildRow(players[i], m))
  }

  /** `Array.prototype.sort` with the comparator `(a, b) => b[k] - a[k]`. */
  function Rank(rows: seq<PlayerRow>, k: SortKey): (r: seq<PlayerRow>)
    ensures multiset(r) == multiset(rows)
    ensures forall i, j :: 0 <= i < j < |r| ==> Stat(r[i], k) >= Stat(r[j], k)
  {
    var r := Sorting.SortBy(rows, (row: PlayerRow) => -Stat(row, k));
    assert forall i, j :: 0 <= i < j < |r| ==> -Stat(r[i], k) <= -Stat(r[j], k);
    r
  }

  /** The rows the page shows, from whatever the two queries currently hold
      (an absent list counts as empty). */
  function StatsTable(players: Option<seq<B.Player>>, allStats: Option<seq<B.PlayerStats>>, k: SortKey): (r: seq<PlayerRow>)
    ensures |r| == |players.GetOr([])|
    ensures forall i, j :: 0 <= i < j < |r| ==> Stat(r[i], k) >= Stat(r[j], k)
    ensures forall i :: 0 <= i < |r| ==> r[i].pts == r[i].goals + r[i].assists
  {
    var rows := BuildRows(players.GetOr([]), StatsIndex(allStats.GetOr([])));
    var r := Rank(rows, k);
    assert |r| == |multiset(r)| == |multiset(rows)| == |rows|;
    forall i | 0 <= i < |r| ensures r[i].pts == r[i].goals + r[i].assists {
      assert r[i] in multiset(rows);
    }
    r
  }

  /** The page opens ranked by points, highest first. */
  lemma OpensRankedByPoints(players: Option<seq<B.Player>>, allStats: Option<seq<B.PlayerStats>>)
    ensures var r := StatsTable(players, allStats, DefaultSortKey);
      forall i, j :: 0 <= i < j < |r| ==> r[i].pts >= r[j].pts
  {
  }

  /** Every roster player has a row, built from the statistics table, and
      every row belongs to a roster player: statistics without a player
      never surface. */
  lemma TableRowsArePlayers(players: seq<B.Player>, allStats: seq<B.PlayerStats>, k: SortKey)
    ensures var r := StatsTable(Some(players), Some(allStats), k);
      && (forall j :: 0 <= j < |players| ==> BuildRow(players[j], StatsIndex(allStats)) in r)
      && (forall i :: 0 <= i < |r| ==> r[i].player in players)
  {
    var m := StatsIndex(allStats);
    RankedRowsArePlayers(players, m, Rank(BuildRows(players, m), k), k);
  }

  lemma RankedRowsArePlayers(players: seq<B.Player>, m: map<string, B.PlayerStats>, r: seq<PlayerRow>, k: SortKey)
    requires r == Rank(BuildRows(players, m), k)
    ensures forall j :: 0 <= j < |players| ==> BuildRow(players[j], m) in r
    ensures forall i :: 0 <= i < |r| ==> r[i].player in players
  {
    var rows := BuildRows(players, m);
    forall j | 0 <= j < |players| ensures BuildRow(players[j], m) in r {
      assert rows[j] in multiset(r);
    }
    forall i | 0 <= i < |r| ensures r[i].player in players {
      assert r[i] in multiset(rows);
      var j :| 0 <= j < |rows| && rows[j] == r[i];
      assert r[i].player == players[j];
    }
  }

  /** Rows with equal values in the ranked column keep the order they had
      before ranking. */
  lemma RankStable(rows: seq<PlayerRow>, k: SortKey, v: int)
    ensures Sorting.WithKey(Rank(rows, k), (row: PlayerRow) => -Stat(row, k), v)
         == Sorting.WithKey(rows, (row: PlayerRow) => -Stat(row, k), v)
  {
    Sorting.SortByStable(rows, (row: PlayerRow) => -Stat(row, k), v);
  }

  /** With the roster in jersey order, as the players query delivers it, rows
      tied in the ranked column are listed by ascending jersey number. */
  lemma TiesInJerseyOrder(service: seq<B.Player>, allStats: seq<B.PlayerStats>, k: SortKey)
    ensures var r := StatsTable(Some(Queries.RosterOrder(service)), Some(allStats), k);
      forall i, j :: 0 <= i < j < |r| && Stat(r[i], k) == Stat(r[j], k) ==>
        r[i].player.number <= r[j].player.number
  {
    var players, m := Queries.RosterOrder(service), StatsIndex(allStats);
    var r := StatsTable(Some(players), Some(allStats), k);
    assert r == Rank(BuildRows(players, m), k);
    RankedTiesInRosterOrder(players, m, r, k);
  }

  lemma RankedTiesInRosterOrder(players: seq<B.Player>, m: map<string, B.PlayerStats>, r: seq<PlayerRow>, k: SortKey)
    requires forall i, j :: 0 <= i < j < |players| ==> players[i].number <= players[j].number
    requires r == Rank(BuildRows(players, m), k)
    ensures forall i, j :: 0 <= i < j < |r| && Stat(r[i], k) == Stat(r[j], k) ==>
      r[i].player.number <= r[j].player.number
  {
    var rows := BuildRows(players, m);
    var key := (row: PlayerRow) => -Stat(row, k);
    var second := (row: PlayerRow) => row.player.number;
    assert Sorting.SortedBy(rows, second);
    Sorting.SortByKeepsTieOrder(rows, key, second);
    assert forall i, j :: 0 <= i < j < |r| && key(r[i]) == key(r[j]) ==> second(r[i]) <= second(r[j]);
  }

  const PositionColors: map<string, string> := map[
    "C" := "bg-gold/20 text-gold border-gold/30",
    "LW" := "bg-secondary/60 text-secondary-foreground border-secondary/30",
    "RW" := "bg-secondary/60 text-secondary-foreground border-secondary/30",
    "D" := "bg-forest/60 text-foreground border-forest/40",
    "G" := "bg-destructive/20 text-destructive border-destructive/30"
  ]

  const DefaultBadge: string := "bg-muted text-muted-foreground border-border"

  /** The badge style of a position, whatever case it was typed in; an
      unknown position gets the neutral style. */
  function PositionBadgeClass(position: string): (r: string)
    ensures r == DefaultBadge <==> Text.ToUpper(position) !in {"C", "LW", "RW", "D", "G"}
  {
    var u := Text.ToUpper(position);
    if u in PositionColors then PositionColors[u] else DefaultBadge
  }

  /** Case does not matter. */
  lemma BadgeIgnoresCase(position: string)
    ensures PositionBadgeClass(Text.ToLower(position)) == PositionBadgeClass(position)
  {
    Text.UpperOfLower(position);
  }

  /** Both wings share one style. */
  lemma WingsShareBadge(a: string, b: string)
    requires Text.ToUpper(a) == "LW" && Text.ToUpper(b) == "RW"
    ensures PositionBadgeClass(a) == PositionBadgeClass(b) != DefaultBadge
  {
  }
}
