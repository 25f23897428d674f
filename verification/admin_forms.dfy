/** The content-management panel's input checks: each form handler either
    turns away its input before any request leaves, or builds the variables
    of one write.  `parseInt` is abstracted: a field that does not read as
    a number arrives here as `None` (JavaScript's `NaN`). */
module AdminForms {

  import opened Optional
  import B = Backend
  import Text
  import Q = Queries
  import PlayerStatsView

  /** The panel's local pass phrase. It only opens the forms; every write is
      still checked by the service against the credential it carries. */
  const AdminPassword: string := "Bubbakellen2!"

  /** The password gate: the typed text is handed on, unchanged, exactly when
      it is the pass phrase. */
  function Authenticate(pw: string): (granted: Option<string>)
    ensures granted.Some? <==> pw == AdminPassword
    ensures granted.Some? ==> granted.value == pw
  {
    if pw == AdminPassword then Some(pw) else None
  }

  // ---------------------------------------------------------------- statistics

  /** The text fields of the statistics editor. */
  datatype StatsForm = StatsForm(gp: string, goals: string, assists: string)

  /** `i` is the first position holding an entry for player `n`. */
  ghost predicate FirstFor(allStats: seq<B.PlayerStats>, n: int, i: int) {
    && 0 <= i < |allStats| && allStats[i].playerNumber == n
    && forall j :: 0 <= j < i ==> allStats[j].playerNumber != n
  }

  /** The first entry for player `n`, as the list's `find` returns it. */
  function FindStats(allStats: seq<B.PlayerStats>, n: int): (r: Option<B.PlayerStats>)
    ensures r.None? <==> forall i :: 0 <= i < |allStats| ==> allStats[i].playerNumber != n
    ensures r.Some? ==> exists i :: FirstFor(allStats, n, i) && allStats[i] == r.value
  {
    if allStats == [] then None
    else if allStats[0].playerNumber == n then Some(allStats[0])
    else
      var r := FindStats(allStats[1..], n);
      assert forall i :: FirstFor(allStats[1..], n, i) ==> FirstFor(allStats, n, i + 1);
      r
  }

  /** The editor opens with the figures of the player's entry, or `"0"` in
      every field when the player has none (or the list has not arrived). */
  function PrefillStatsForm(allStats: Option<seq<B.PlayerStats>>, n: int): (f: StatsForm)
    ensures FindStats(allStats.GetOr([]), n).None? ==> f == StatsForm("0", "0", "0")
    ensures FindStats(allStats.GetOr([]), n).Some? ==>
      var s := FindStats(allStats.GetOr([]), n).value;
      Text.ParseDecimal(f.gp) == Some(s.gamesPlayed) && Text.ParseDecimal(f.goals) == Some(s.goals)
      && Text.ParseDecimal(f.assists) == Some(s.assists)
  {
    match FindStats(allStats.GetOr([]), n)
    case None => StatsForm("0", "0", "0")
    case Some(s) =>
      Text.IntToStringRoundTrip(s.gamesPlayed);
      Text.IntToStringRoundTrip(s.goals);
      Text.IntToStringRoundTrip(s.assists);
      StatsForm(Text.IntToString(s.gamesPlayed), Text.IntToString(s.goals), Text.IntToString(s.assists))
  }

  /** Saving statistics: nothing is sent unless all three fields are numbers
      and none is negative. */
  function SaveStatsRequest(playerNumber: int, gp: Option<int>, goals: Option<int>, assists: Option<int>, password: string): (r: Option<Q.Request>)
    ensures r.Some? <==> (gp.Some? && goals.Some? && assists.Some?
                          && gp.value >= 0 && goals.value >= 0 && assists.value >= 0)
    ensures r.Some? ==> r.value == Q.SetPlayerStatsRequest(playerNumber, goals.value, assists.value, gp.value, password)
  {
    if gp.None? || goals.None? || assists.None? then None
    else if gp.value < 0 || goals.value < 0 || assists.value < 0 then None
    else Some(Q.SetPlayerStatsRequest(playerNumber, goals.value, assists.value, gp.value, password))
  }

  /** Saving the editor as it opened re-sends the figures it showed (when
      they are not negative), or zeros for a player without an entry. */
  lemma SaveUneditedStats(allStats: seq<B.PlayerStats>, n: int, password: string)
    ensures var f := PrefillStatsForm(Some(allStats), n);
      var r := SaveStatsRequest(n, Text.ParseDecimal(f.gp), Text.ParseDecimal(f.goals), Text.ParseDecimal(f.assists), password);
      match FindStats(allStats, n)
      case None => r == Some(Q.SetPlayerStatsRequest(n, 0, 0, 0, password))
      case Some(s) =>
        r == if s.gamesPlayed >= 0 && s.goals >= 0 && s.assists >= 0
             then Some(Q.SetPlayerStatsRequest(n, s.goals, s.assists, s.gamesPlayed, password))
             else None
  {
    if FindStats(allStats, n).None? {
      assert Text.ParseDecimal("0") == Some(0);
    }
  }

  /** The editor and the statistics table read the same entry when no two
      entries share a player number. */
  lemma PrefillMatchesTable(allStats: seq<B.PlayerStats>, n: int)
    requires forall i, j :: 0 <= i < j < |allStats| ==> allStats[i].playerNumber != allStats[j].playerNumber
    requires FindStats(allStats, n).Some?
    ensures Text.IntToString(n) in PlayerStatsView.StatsIndex(allStats)
    ensures PlayerStatsView.StatsIndex(allStats)[Text.IntToString(n)] == FindStats(allStats, n).value
  {
    var s := FindStats(allStats, n).value;
    var i :| FirstFor(allStats, n, i) && allStats[i] == s;
    PlayerStatsView.LookupFindsLastEntry(allStats, n, i);
  }

  /** With two entries for one number they do not: the editor opens with the
      first entry while the table shows the last. */
  lemma PrefillAndTableDisagreeOnDuplicates()
    ensures var allStats := [B.PlayerStats(1, 0, 1, 7), B.PlayerStats(1, 0, 2, 7)];
      && FindStats(allStats, 7) == Some(allStats[0])
      && PlayerStatsView.StatsIndex(allStats)[Text.IntToString(7)] == allStats[1]
  {
    var allStats := [B.PlayerStats(1, 0, 1, 7), B.PlayerStats(1, 0, 2, 7)];
    PlayerStatsView.LookupFindsLastEntry(allStats, 7, 1);
  }

  // ------------------------------------------------------------------- players

  /** The text fields of the player forms. */
  datatype PlayerForm = PlayerForm(
    number: string, name: string, position: string, photo: string,
    height: string, weight: string, age: string, hometown: string,
    maxPrepsUrl: string, eliteProspectsUrl: string)

  const EmptyPlayerForm: PlayerForm := PlayerForm("", "", "", "", "", "", "", "", "", "")

  /** Adding a player: nothing is sent unless the number reads as a number
      and the trimmed name and position are not empty.  Text fields other
      than the photo are trimmed, and an age that is not a number becomes 0. */
  function AddPlayerRequest(form: PlayerForm, number: Option<int>, age: Option<int>, password: string): (r: Option<Q.Request>)
    ensures r.None? <==> number.None? || Text.AllWhitespace(form.name) || Text.AllWhitespace(form.position)
    ensures r.Some? ==> r.value.AddPlayerRequest? && r.value.password == password
    ensures r.Some? ==>
      var p := r.value.player;
      && p.number == number.value && p.age == age.GetOr(0)
      && p.name == Text.Trim(form.name) != [] && p.position == Text.Trim(form.position) != []
      && p.photo == form.photo && p.height == Text.Trim(form.height)
      && p.weight == Text.Trim(form.weight) && p.hometown == Text.Trim(form.hometown)
      && p.maxPrepsUrl == Text.Trim(form.maxPrepsUrl)
      && p.eliteProspectsUrl == Text.Trim(form.eliteProspectsUrl)
  {
    if number.None? || Text.Trim(form.name) == [] || Text.Trim(form.position) == [] then None
    else
      Some(Q.AddPlayerRequest(
        Q.PlayerInput(number.value, Text.Trim(form.name), Text.Trim(form.position), form.photo,
                      Text.Trim(form.height), Text.Trim(form.weight), age.GetOr(0),
                      Text.Trim(form.hometown), Text.Trim(form.maxPrepsUrl),
                      Text.Trim(form.eliteProspectsUrl)),
        password))
  }

  /** The edit form opened on a player shows its stored fields. */
  function EditFormOf(p: B.Player): (f: PlayerForm)
    ensures Text.ParseDecimal(f.number) == Some(p.number) && Text.ParseDecimal(f.age) == Some(p.age)
    ensures f.name == p.name && f.position == p.position && f.photo == p.photo
    ensures f.height == p.height && f.weight == p.weight && f.hometown == p.hometown
    ensures f.maxPrepsUrl == p.maxPrepsUrl.GetOr("") && f.eliteProspectsUrl == p.eliteProspectsUrl.GetOr("")
  {
    Text.IntToStringRoundTrip(p.number);
    Text.IntToStringRoundTrip(p.age);
    PlayerForm(Text.IntToString(p.number), p.name, p.position, p.photo, p.height, p.weight,
               Text.IntToString(p.age), p.hometown, p.maxPrepsUrl.GetOr(""), p.eliteProspectsUrl.GetOr(""))
  }

  /** Updating a player: nothing is sent while no player is being edited;
      otherwise the number sent is always the edited player's own, whatever
      the form says, and the other fields are taken from the form as when
      adding (without the emptiness checks). */
  function UpdatePlayerRequest(editing: Option<B.Player>, form: PlayerForm, age: Option<int>, password: string): (r: Option<Q.Request>)
    ensures r.None? <==> editing.None?
    ensures r.Some? ==> r.value.UpdatePlayerRequest? && r.value.password == password
    ensures r.Some? ==>
      var p := r.value.player;
      && p.number == editing.value.number && p.age == age.GetOr(0)
      && p.name == Text.Trim(form.name) && p.position == Text.Trim(form.position)
      && p.photo == form.photo && p.height == Text.Trim(form.height)
      && p.weight == Text.Trim(form.weight) && p.hometown == Text.Trim(form.hometown)
      && p.maxPrepsUrl == Text.Trim(form.maxPrepsUrl)
      && p.eliteProspectsUrl == Text.Trim(form.eliteProspectsUrl)
  {
    match editing
    case None => None
    case Some(player) =>
      Some(Q.UpdatePlayerRequest(
        Q.PlayerInput(player.number, Text.Trim(form.name), Text.Trim(form.position), form.photo,
                      Text.Trim(form.height), Text.Trim(form.weight), age.GetOr(0),
                      Text.Trim(form.hometown), Text.Trim(form.maxPrepsUrl),
                      Text.Trim(form.eliteProspectsUrl)),
        password))
  }

  /** A player whose text fields carry no surrounding whitespace and whose
      links are either absent or non-blank and trimmed. */
  predicate Tidy(p: B.Player) {
    && Text.Trim(p.name) == p.name && Text.Trim(p.position) == p.position
    && Text.Trim(p.height) == p.height && Text.Trim(p.weight) == p.weight
    && Text.Trim(p.hometown) == p.hometown
    && (p.maxPrepsUrl.Some? ==> p.maxPrepsUrl.value != [] && Text.Trim(p.maxPrepsUrl.value) == p.maxPrepsUrl.value)
    && (p.eliteProspectsUrl.Some? ==> p.eliteProspectsUrl.value != [] && Text.Trim(p.eliteProspectsUrl.value) == p.eliteProspectsUrl.value)
  }

  lemma {:induction false} ResendUrl(u: Option<string>)
    requires u.Some? ==> u.value != [] && Text.Trim(u.value) == u.value
    ensures Q.NormalizeUrl(Text.Trim(u.GetOr(""))) == u
  {
    if u.Some? {
      Q.NormalizeTrimmedUrl(u.value);
    } else {
      assert Text.AllWhitespace("");
    }
  }

  /** Saving the edit form unchanged sends the service the player it was
      opened on. */
  lemma UneditedUpdateResendsPlayer(p: B.Player, password: string)
    requires Tidy(p)
    ensures var f := EditFormOf(p);
      var r := UpdatePlayerRequest(Some(p), f, Text.ParseDecimal(f.age), password);
      r.Some? && Q.ServicePlayer(r.value.player) == p
  {
    ResendUrl(p.maxPrepsUrl);
    ResendUrl(p.eliteProspectsUrl);
  }

  /** A link typed into the add form reaches the service as null exactly when
      it is blank, and trimmed otherwise. */
  lemma AddedPlayerLinks(form: PlayerForm, number: Option<int>, age: Option<int>, password: string)
    requires AddPlayerRequest(form, number, age, password).Some?
    ensures var sent := Q.ServicePlayer(AddPlayerRequest(form, number, age, password).value.player);
      && sent.maxPrepsUrl == Q.NormalizeUrl(form.maxPrepsUrl)
      && sent.eliteProspectsUrl == Q.NormalizeUrl(form.eliteProspectsUrl)
  {
    Q.NormalizeTrimmedUrl(form.maxPrepsUrl);
    Q.NormalizeTrimmedUrl(form.eliteProspectsUrl);
  }

  /** Every player the add and edit forms send reaches the service tidy,
      which is what `UneditedUpdateResendsPlayer` asks of the player it
      starts from. */
  lemma SentPlayersAreTidy(form: PlayerForm, number: Option<int>, age: Option<int>,
                           editing: Option<B.Player>, password: string)
    ensures var a := AddPlayerRequest(form, number, age, password);
      a.Some? ==> Tidy(Q.ServicePlayer(a.value.player))
    ensures var u := UpdatePlayerRequest(editing, form, age, password);
      u.Some? ==> Tidy(Q.ServicePlayer(u.value.player))
  {
    Text.TrimIdempotent(form.name);
    Text.TrimIdempotent(form.position);
    Text.TrimIdempotent(form.height);
    Text.TrimIdempotent(form.weight);
    Text.TrimIdempotent(form.hometown);
    Text.TrimIdempotent(form.maxPrepsUrl);
    Text.TrimIdempotent(form.eliteProspectsUrl);
    var a := AddPlayerRequest(form, number, age, password);
    if a.Some? {
      TrimmedInputIsTidy(a.value.player);
    }
    var u := UpdatePlayerRequest(editing, form, age, password);
    if u.Some? {
      TrimmedInputIsTidy(u.value.player);
    }
  }

  lemma TrimmedInputIsTidy(p: Q.PlayerInput)
    requires Text.Trim(p.name) == p.name && Text.Trim(p.position) == p.position
    requires Text.Trim(p.height) == p.height && Text.Trim(p.weight) == p.weight
    requires Text.Trim(p.hometown) == p.hometown
    requires Text.Trim(p.maxPrepsUrl) == p.maxPrepsUrl
    requires Text.Trim(p.eliteProspectsUrl) == p.eliteProspectsUrl
    ensures Tidy(Q.ServicePlayer(p))
  {
  }

  /** Removing a player, game or post: sent only once the confirmation was
      accepted. */
  function RemovePlayerRequest(number: int, confirmed: bool, password: string): (r: Option<Q.Request>)
    ensures r.Some? <==> confirmed
    ensures r.Some? ==> r.value.RemovePlayerRequest? && r.value.number == number && r.value.password == password
  {
    if confirmed then Some(Q.RemovePlayerRequest(number, password)) else None
  }

  // --------------------------------------------------------------------- games

  datatype GameForm = GameForm(date: string, opponent: string, location: string, isHome: bool)

  const EmptyGameForm: GameForm := GameForm("", "", "", true)

  /** Adding a game: nothing is sent if the trimmed date, opponent or location
      is empty. */
  function AddGameRequest(form: GameForm, password: string): (r: Option<Q.Request>)
    ensures r.None? <==> Text.AllWhitespace(form.date) || Text.AllWhitespace(form.opponent) || Text.AllWhitespace(form.location)
    ensures r.Some? ==> r.value == Q.AddGameRequest(Text.Trim(form.date), Text.Trim(form.opponent),
                                                    Text.Trim(form.location), form.isHome, password)
  {
    if Text.Trim(form.date) == [] || Text.Trim(form.opponent) == [] || Text.Trim(form.location) == [] then None
    else Some(Q.AddGameRequest(Text.Trim(form.date), Text.Trim(form.opponent), Text.Trim(form.location), form.isHome, password))
  }

  /** The score form of one game. */
  datatype ScoreForm = ScoreForm(gameId: int, homeScore: string, awayScore: string)

  /** Recording a score: nothing is sent unless a game's score form is open
      and both scores read as numbers (negative ones included); a sent score
      always marks the game completed. */
  function UpdateScoreRequest(scoreForm: Option<ScoreForm>, home: Option<int>, away: Option<int>, password: string): (r: Option<Q.Request>)
    ensures r.Some? <==> scoreForm.Some? && home.Some? && away.Some?
    ensures r.Some? ==> r.value == Q.UpdateGameScoresRequest(scoreForm.value.gameId, home.value, away.value, true, password)
  {
    if scoreForm.None? then None
    else if home.None? || away.None? then None
    else Some(Q.UpdateGameScoresRequest(scoreForm.value.gameId, home.value, away.value, true, password))
  }

  function RemoveGameRequest(id: int, confirmed: bool, password: string): (r: Option<Q.Request>)
    ensures r.Some? <==> confirmed
    ensures r.Some? ==> r.value.RemoveGameRequest? && r.value.id == id && r.value.password == password
  {
    if confirmed then Some(Q.RemoveGameRequest(id, password)) else None
  }

  // ---------------------------------------------------------------------- news

  datatype NewsForm = NewsForm(title: string, body: string, date: string)

  const EmptyNewsForm: NewsForm := NewsForm("", "", "")

  /** Adding a post: nothing is sent if the trimmed title, body or date is
      empty. */
  function AddNewsRequest(form: NewsForm, password: string): (r: Option<Q.Request>)
    ensures r.None? <==> Text.AllWhitespace(form.title) || Text.AllWhitespace(form.body) || Text.AllWhitespace(form.date)
    ensures r.Some? ==> r.value == Q.AddNewsPostRequest(Text.Trim(form.title), Text.Trim(form.body),
                                                        Text.Trim(form.date), password)
  {
    if Text.Trim(form.title) == [] || Text.Trim(form.body) == [] || Text.Trim(form.date) == [] then None
    else Some(Q.AddNewsPostRequest(Text.Trim(form.title), Text.Trim(form.body), Text.Trim(form.date), password))
  }

  /** Editing a post: sent whenever a post is being edited, with the edited
      post's own id and the trimmed fields (which may be empty). */
  function UpdateNewsRequest(editing: Option<B.NewsPost>, form: NewsForm, password: string): (r: Option<Q.Request>)
    ensures r.None? <==> editing.None?
    ensures r.Some? ==> r.value == Q.UpdateNewsPostRequest(editing.value.id, Text.Trim(form.title),
                                                           Text.Trim(form.body), Text.Trim(form.date), password)
  {
    match editing
    case None => None
    case Some(post) =>
      Some(Q.UpdateNewsPostRequest(post.id, Text.Trim(form.title), Text.Trim(form.body), Text.Trim(form.date), password))
  }

  function RemoveNewsRequest(id: int, confirmed: bool, password: string): (r: Option<Q.Request>)
    ensures r.Some? <==> confirmed
    ensures r.Some? ==> r.value.RemoveNewsPostRequest? && r.value.id == id && r.value.password == password
  {
    if confirmed then Some(Q.RemoveNewsPostRequest(id, password)) else None
  }

  // ----------------------------------------------------------------- team info

  datatype TeamInfoForm = TeamInfoForm(wins: string, losses: string, overtimeLosses: string, points: string, leaguePosition: string)

  const EmptyTeamInfoForm: TeamInfoForm := TeamInfoForm("", "", "", "", "")

  /** The team form filled from a record: each field reads back as its counter. */
  function TeamInfoFormOf(t: B.TeamInfo): (f: TeamInfoForm)
    ensures Text.ParseDecimal(f.wins) == Some(t.wins) && Text.ParseDecimal(f.losses) == Some(t.losses)
    ensures Text.ParseDecimal(f.overtimeLosses) == Some(t.overtimeLosses)
    ensures Text.ParseDecimal(f.points) == Some(t.points)
    ensures Text.ParseDecimal(f.leaguePosition) == Some(t.leaguePosition)
  {
    Text.IntToStringRoundTrip(t.wins);
    Text.IntToStringRoundTrip(t.losses);
    Text.IntToStringRoundTrip(t.overtimeLosses);
    Text.IntToStringRoundTrip(t.points);
    Text.IntToStringRoundTrip(t.leaguePosition);
    TeamInfoForm(Text.IntToString(t.wins), Text.IntToString(t.losses), Text.IntToString(t.overtimeLosses),
                 Text.IntToString(t.points), Text.IntToString(t.leaguePosition))
  }

  /** Updating the team record: nothing is sent if any of the five fields is
      not a number; negative values are sent as they are. */
  function TeamInfoRequest(wins: Option<int>, losses: Option<int>, otl: Option<int>, points: Option<int>, position: Option<int>, password: string): (r: Option<Q.Request>)
    ensures r.Some? <==> wins.Some? && losses.Some? && otl.Some? && points.Some? && position.Some?
    ensures r.Some? ==> r.value == Q.UpdateTeamInfoRequest(wins.value, losses.value, otl.value, points.value, position.value, password)
  {
    if wins.None? || losses.None? || otl.None? || points.None? || position.None? then None
    else Some(Q.UpdateTeamInfoRequest(wins.value, losses.value, otl.value, points.value, position.value, password))
  }

  /** Submitting the team form as it was filled re-sends the record. */
  lemma UneditedTeamInfoResendsRecord(t: B.TeamInfo, password: string)
    ensures var f := TeamInfoFormOf(t);
      TeamInfoRequest(Text.ParseDecimal(f.wins), Text.ParseDecimal(f.losses), Text.ParseDecimal(f.overtimeLosses),
                      Text.ParseDecimal(f.points), Text.ParseDecimal(f.leaguePosition), password)
      == Some(Q.UpdateTeamInfoRequest(t.wins, t.losses, t.overtimeLosses, t.points, t.leaguePosition, password))
  {
  }
}
