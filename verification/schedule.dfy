/** The schedule page's derived views of a game: the score line and the
    win/loss/overtime badge of a finished game, seen from this team's side. */
module Schedule {

  import opened Optional
  import B = Backend
  import Text

  /** The en dash the score line uses, both as separator and as placeholder. */
  const EnDash: char := '\U{2013}'

  /** The score line: `<home>–<away>` when both scores are known, else `–`. */
  function FormatScore(g: B.Game): (r: string)
    ensures g.homeScore.None? || g.awayScore.None? ==> r == [EnDash]
    ensures ReadScore(r) == if g.homeScore.Some? && g.awayScore.Some?
                            then Some((g.homeScore.value, g.awayScore.value)) else None
  {
    if g.homeScore.Some? && g.awayScore.Some? then
      var h, a := Text.IntToString(g.homeScore.value), Text.IntToString(g.awayScore.value);
      ScoreLineReads(g.homeScore.value, g.awayScore.value);
      h + [EnDash] + a
    else
      [EnDash]
  }

  /** The position of the first `c` in `s`, or `|s|` when there is none. */
  function IndexOf(s: string, c: char): (i: nat)
    ensures i <= |s| && (i < |s| ==> s[i] == c)
    ensures forall j :: 0 <= j < i ==> s[j] != c
  {
    if s == [] then 0 else if s[0] == c then 0 else 1 + IndexOf(s[1..], c)
  }

  /** Reads a score line back into the home and away scores. */
  function ReadScore(s: string): Option<(int, int)> {
    var i := IndexOf(s, EnDash);
    if i == |s| then None
    else
      match (Text.ParseDecimal(s[..i]), Text.ParseDecimal(s[i + 1..]))
      case (Some(h), Some(a)) => Some((h, a))
      case _ => None
  }

  lemma ScoreLineReads(home: int, away: int)
    ensures ReadScore(Text.IntToString(home) + [EnDash] + Text.IntToString(away)) == Some((home, away))
  {
    var h, a := Text.IntToString(home), Text.IntToString(away);
    var s := h + [EnDash] + a;
    NoDashInNumber(home);
    assert s[|h|] == EnDash;
    assert IndexOf(s, EnDash) == |h|;
    assert s[..|h|] == h;
    assert s[|h| + 1..] == a;
    Text.IntToStringRoundTrip(home);
    Text.IntToStringRoundTrip(away);
  }

  lemma NoDashInNumber(n: int)
    ensures forall j :: 0 <= j < |Text.IntToString(n)| ==> Text.IntToString(n)[j] != EnDash
  {
    var s := Text.IntToString(n);
    forall j | 0 <= j < |s| ensures s[j] != EnDash {
      if n < 0 && j > 0 {
        assert s[j] == Text.NatToString(-n)[j - 1];
      }
    }
  }

  /** The placeholder line is not a score. */
  lemma PlaceholderReadsNothing()
    ensures ReadScore([EnDash]) == None
  {
    assert IndexOf([EnDash], EnDash) == 0;
    assert [EnDash][..0] == [];
  }

  /** The badge of a finished game. */
  datatype Outcome = W | L | OT {
    function Label(): string {
      match this
      case W => "W"
      case L => "L"
      case OT => "OT"
    }

    function ClassName(): string {
      match this
      case W => "bg-green-900/40 text-green-300 border-green-700/40"
      case L => "bg-red-900/40 text-red-300 border-red-700/40"
      case OT => "bg-yellow-900/40 text-yellow-300 border-yellow-700/40"
    }
  }

  /** Our goals and the opponent's: the home score is ours in a home game,
      the away score in an away game. */
  function Ours(home: int, away: int, isHome: bool): int {
    if isHome then home else away
  }

  function Theirs(home: int, away: int, isHome: bool): int {
    if isHome then away else home
  }

  /** The result badge: none unless both scores are known; otherwise a win
      when we scored more, a loss when we scored less, and `OT` on a tie. */
  function GetResult(g: B.Game): (r: Option<Outcome>)
    ensures r.None? <==> g.homeScore.None? || g.awayScore.None?
    ensures r.Some? ==>
      var us, them := Ours(g.homeScore.value, g.awayScore.value, g.isHome),
                      Theirs(g.homeScore.value, g.awayScore.value, g.isHome);
      && (r.value == W <==> us > them)
      && (r.value == L <==> us < them)
      && (r.value == OT <==> us == them)
  {
    if g.homeScore.None? || g.awayScore.None? then None
    else
      var homeScore, awayScore := g.homeScore.value, g.awayScore.value;
      if g.isHome then
        if homeScore > awayScore then Some(W)
        else if homeScore < awayScore then Some(L)
        else Some(OT)
      else
        if awayScore > homeScore then Some(W)
        else if awayScore < homeScore then Some(L)
        else Some(OT)
  }

  /** The badge as seen by the other team. */
  function Swap(o: Outcome): Outcome {
    match o
    case W => L
    case L => W
    case OT => OT
  }

  /** Turning a home game into an away game with the same scores swaps a
      win and a loss and keeps `OT`. */
  lemma FlipSidesSwapsResult(g: B.Game)
    requires g.homeScore.Some? && g.awayScore.Some?
    ensures GetResult(g.(isHome := !g.isHome)) == Some(Swap(GetResult(g).value))
  {
  }

  /** Results of concrete home and away games. */
  lemma ResultExamples(g: B.Game)
    ensures g.isHome && g.homeScore == Some(4) && g.awayScore == Some(2) ==> GetResult(g) == Some(W)
    ensures g.isHome && g.homeScore == Some(2) && g.awayScore == Some(4) ==> GetResult(g) == Some(L)
    ensures g.isHome && g.homeScore == Some(3) && g.awayScore == Some(3) ==> GetResult(g) == Some(OT)
    ensures !g.isHome && g.homeScore == Some(2) && g.awayScore == Some(5) ==> GetResult(g) == Some(W)
  {
  }
}
