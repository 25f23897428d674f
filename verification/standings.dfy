/** The standings page's figures, derived from the team record (or from
    nothing while the record has not arrived). */
module Standings {

  import opened Optional
  import B = Backend

  /** The five counters the page shows. */
  datatype Counters = Counters(wins: int, losses: int, otl: int, pts: int, position: int)

  /** Every counter is taken from the record when there is one, and is zero
      otherwise. */
  function CountersOf(t: Option<B.TeamInfo>): (c: Counters)
    ensures t.None? ==> c.wins == c.losses == c.otl == c.pts == c.position == 0
    ensures t.Some? ==>
      && c.wins == t.value.wins && c.losses == t.value.losses
      && c.otl == t.value.overtimeLosses && c.pts == t.value.points
      && c.position == t.value.leaguePosition
  {
    match t
    case None => Counters(0, 0, 0, 0, 0)
    case Some(info) =>
      Counters(info.wins, info.losses, info.overtimeLosses, info.points, info.leaguePosition)
  }

  function GamesPlayed(c: Counters): int {
    c.wins + c.losses + c.otl
  }

  /** The win rate in percent, before rounding to one decimal: wins per game
      played times a hundred, and zero when no game has been played (the
      page never divides by zero). */
  function WinPercent(c: Counters): (pct: real)
    ensures GamesPlayed(c) <= 0 ==> pct == 0.0
    ensures GamesPlayed(c) > 0 ==> pct * GamesPlayed(c) as real == 100.0 * c.wins as real
  {
    var gamesPlayed := GamesPlayed(c);
    if gamesPlayed > 0 then (c.wins as real / gamesPlayed as real) * 100.0 else 0.0
  }

  /** With counters that are not negative the rate is a percentage. */
  lemma WinPercentBounds(c: Counters)
    requires c.wins >= 0 && c.losses >= 0 && c.otl >= 0
    ensures 0.0 <= WinPercent(c) <= 100.0
    ensures WinPercent(c) == 100.0 <==> c.wins > 0 && c.losses == 0 && c.otl == 0
  {
    var gp := GamesPlayed(c);
    if gp > 0 {
      var pct := WinPercent(c);
      assert pct * gp as real == 100.0 * c.wins as real;
      assert c.wins <= gp;
      if pct == 100.0 {
        assert c.wins == gp;
      }
    }
  }

  /** The rate of a blank record and of a 7-3-0 record. */
  lemma WinPercentExamples()
    ensures WinPercent(Counters(0, 0, 0, 0, 0)) == 0.0
    ensures WinPercent(Counters(7, 3, 0, 0, 0)) == 70.0
  {
    var c := Counters(7, 3, 0, 0, 0);
    assert GamesPlayed(c) == 10;
    assert WinPercent(c) * 10.0 == 700.0;
  }

  /** The loss column counts regulation and overtime losses together. */
  function LossColumn(c: Counters): (n: int)
    ensures c.wins + n == GamesPlayed(c)
  {
    c.losses + c.otl
  }

  /** The width of the win bar, in percent; there is no bar until a game has
      been played. */
  function WinBar(c: Counters): (w: Option<real>)
    ensures w.Some? <==> GamesPlayed(c) > 0
    ensures w.Some? ==> w.value == WinPercent(c)
  {
    var gamesPlayed := GamesPlayed(c);
    if gamesPlayed > 0 then Some((c.wins as real / gamesPlayed as real) * 100.0) else None
  }

  /** While the record is missing, the derived games played and win rate
      are zero and there is no win bar. */
  lemma MissingRecordShowsNothing()
    ensures GamesPlayed(CountersOf(None)) == 0
    ensures WinPercent(CountersOf(None)) == 0.0
    ensures WinBar(CountersOf(None)) == None
  {
    assert CountersOf(None) == Counters(0, 0, 0, 0, 0);
  }
}
