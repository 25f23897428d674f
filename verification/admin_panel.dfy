/** The content-management panel's state: the password gate, the unlocked
    session, and the four editing sections with their open forms.  Each
    submit handler builds its request with the checks of `AdminForms`, hands
    it to its write hook, and updates its own form state when the write
    succeeded.  `parse` stands for JavaScript's `parseInt` (`None` is `NaN`)
    and `accepted` for the service's verdict on the write. */
module AdminPanel {

  import opened Optional
  import B = Backend
  import Q = Queries
  import opened AdminForms

  /** A write hook's `mutateAsync`: when a request was built it goes out, and
      the cache is invalidated as its hook does on success; when none was
      built nothing is sent and the cache is left alone.  `done` tells the
      handler that the write succeeded. */
  method Submit(cache: Q.QueryCache, req: Option<Q.Request>, accepted: bool) returns (done: bool)
    requires cache.Valid()
    modifies cache
    ensures done <==> req.Some? && accepted
    ensures cache.Valid() && cache.entries == old(cache.entries)
    ensures cache.stale == if req.Some?
                           then Q.StaleAfter(old(cache.stale), old(cache.entries).Keys, Q.KindOf(req.value), accepted)
                           else old(cache.stale)
  {
    done := false;
    if req.Some? {
      cache.ApplyMutation(Q.KindOf(req.value), accepted);
      done := accepted;
    }
  }

  /** The password gate: the typed text and whether the last attempt failed. */
  class PasswordGate {
    var typed: string
    var error: bool

    constructor ()
      ensures typed == "" && !error
    {
      typed := "";
      error := false;
    }

    /** Typing replaces the text and clears the error. */
    method Type(text: string)
      modifies this
      ensures typed == text && !error
    {
      typed := text;
      error := false;
    }

    /** Submitting hands the typed text on exactly when it is the pass phrase,
        and shows the error otherwise. */
    method HandleSubmit() returns (granted: Option<string>)
      modifies this
      ensures granted == Authenticate(typed)
      ensures typed == old(typed)
      ensures error <==> typed != AdminPassword
    {
      if typed == AdminPassword {
        error := false;
        granted := Some(typed);
      } else {
        error := true;
        granted := None;
      }
    }
  }

  /** The page itself: the credential every section sends, once unlocked. */
  class AdminSession {
    var password: Option<string>

    constructor ()
      ensures password == None
    {
      password := None;
    }

    /** The panel is shown instead of the gate while a non-empty credential
        is held. */
    predicate Unlocked()
      reads this
    {
      password.Some? && password.value != ""
    }

    /** A gate submit: a granted credential unlocks the panel with exactly
        the text typed; a refused one changes nothing here. */
    method GateSubmit(gate: PasswordGate)
      modifies this, gate
      ensures gate.typed == old(gate.typed)
      ensures gate.error <==> old(gate.typed) != AdminPassword
      ensures password == if old(gate.typed) == AdminPassword then Some(AdminPassword) else old(password)
      ensures old(gate.typed) == AdminPassword ==> Unlocked()
    {
      var granted := gate.HandleSubmit();
      if granted.Some? {
        password := granted;
      }
    }

    /** The lock button forgets the credential; the gate shown again is a
        fresh one, with nothing typed and no error. */
    method Lock(gate: PasswordGate)
      modifies this, gate
      ensures password == None && !Unlocked()
      ensures gate.typed == "" && !gate.error
    {
      password := None;
      gate.typed := "";
      gate.error := false;
    }
  }

  /** The players section: the add form, the player being edited with its
      form, and the player whose statistics editor is open. */
  class PlayersSection {
    const password: string
    var form: PlayerForm
    var editing: Option<B.Player>
    var editForm: PlayerForm
    var statsOpenFor: Option<int>

    constructor (password: string)
      ensures this.password == password
      ensures form == EmptyPlayerForm && editing == None && editForm == EmptyPlayerForm && statsOpenFor == None
    {
      this.password := password;
      form := EmptyPlayerForm;
      editing := None;
      editForm := EmptyPlayerForm;
      statsOpenFor := None;
    }

    /** Add: the form is cleared only when the player was added. */
    method HandleAdd(parse: string -> Option<int>, cache: Q.QueryCache, accepted: bool) returns (sent: Option<Q.Request>)
      requires cache.Valid()
      modifies this, cache
      ensures sent == AddPlayerRequest(old(form), parse(old(form).number), parse(old(form).age), password)
      ensures cache.Valid() && cache.entries == old(cache.entries)
      ensures cache.stale == if sent.Some? then Q.StaleAfter(old(cache.stale), old(cache.entries).Keys, Q.AddPlayer, accepted) else old(cache.stale)
      ensures form == if sent.Some? && accepted then EmptyPlayerForm else old(form)
      ensures editing == old(editing) && editForm == old(editForm) && statsOpenFor == old(statsOpenFor)
    {
      sent := AddPlayerRequest(form, parse(form.number), parse(form.age), password);
      assert sent.Some? ==> Q.KindOf(sent.value) == Q.AddPlayer;
      var done := Submit(cache, sent, accepted);
      if done {
        form := EmptyPlayerForm;
      }
    }

    /** Opening the edit form on a player fills it from that player. */
    method StartEdit(p: B.Player)
      modifies this
      ensures editing == Some(p) && editForm == EditFormOf(p)
      ensures form == old(form) && statsOpenFor == old(statsOpenFor)
    {
      editing := Some(p);
      editForm := EditFormOf(p);
    }

    method CancelEdit()
      modifies this
      ensures editing == None
      ensures form == old(form) && editForm == old(editForm) && statsOpenFor == old(statsOpenFor)
    {
      editing := None;
    }

    /** Update: the edit form closes only when the update succeeded. */
    method HandleUpdate(parse: string -> Option<int>, cache: Q.QueryCache, accepted: bool) returns (sent: Option<Q.Request>)
      requires cache.Valid()
      modifies this, cache
      ensures sent == UpdatePlayerRequest(old(editing), old(editForm), parse(old(editForm).age), password)
      ensures cache.Valid() && cache.entries == old(cache.entries)
      ensures cache.stale == if sent.Some? then Q.StaleAfter(old(cache.stale), old(cache.entries).Keys, Q.UpdatePlayer, accepted) else old(cache.stale)
      ensures editing == if sent.Some? && accepted then None else old(editing)
      ensures form == old(form) && editForm == old(editForm) && statsOpenFor == old(statsOpenFor)
    {
      sent := UpdatePlayerRequest(editing, editForm, parse(editForm.age), password);
      assert sent.Some? ==> Q.KindOf(sent.value) == Q.UpdatePlayer;
      var done := Submit(cache, sent, accepted);
      if done {
        editing := None;
      }
    }

    /** Remove: sent only after the confirmation; no form state changes. */
    method HandleRemove(number: int, confirmed: bool, cache: Q.QueryCache, accepted: bool) returns (sent: Option<Q.Request>)
      requires cache.Valid()
      modifies cache
      ensures sent == RemovePlayerRequest(number, confirmed, password)
      ensures cache.Valid() && cache.entries == old(cache.entries)
      ensures cache.stale == if confirmed then Q.StaleAfter(old(cache.stale), old(cache.entries).Keys, Q.RemovePlayer, accepted) else old(cache.stale)
    {
      sent := RemovePlayerRequest(number, confirmed, password);
      assert sent.Some? ==> Q.KindOf(sent.value) == Q.RemovePlayer;
      var _ := Submit(cache, sent, accepted);
    }

    /** The statistics button opens a player's editor, or closes it when it is
        that player's editor which is open. */
    method ToggleStats(n: int)
      modifies this
      ensures statsOpenFor == if old(statsOpenFor) == Some(n) then None else Some(n)
      ensures form == old(form) && editing == old(editing) && editForm == old(editForm)
    {
      statsOpenFor := if statsOpenFor == Some(n) then None else Some(n);
    }

    /** The editor's `onClose`. */
    method CloseStats()
      modifies this
      ensures statsOpenFor == None
      ensures form == old(form) && editing == old(editing) && editForm == old(editForm)
    {
      statsOpenFor := None;
    }
  }

  /** The statistics editor of one player, mounted by the players section
      while that player's editor is the open one; closing it is the
      section's `onClose`, which clears `statsOpenFor`. */
  class InlineStatsEditor {
    const section: PlayersSection
    const playerNumber: int
    const password: string
    var form: StatsForm

    /** The editor is shown exactly while the section has it open. */
    predicate Shown()
      reads section
    {
      section.statsOpenFor == Some(playerNumber)
    }

    /** The editor opens with the figures of the player's first entry. */
    constructor (section: PlayersSection, allStats: Option<seq<B.PlayerStats>>, playerNumber: int, password: string)
      requires section.statsOpenFor == Some(playerNumber)
      ensures this.section == section && this.playerNumber == playerNumber && this.password == password
      ensures form == PrefillStatsForm(allStats, playerNumber) && Shown()
    {
      this.section := section;
      this.playerNumber := playerNumber;
      this.password := password;
      form := PrefillStatsForm(allStats, playerNumber);
    }

    /** Save: the section closes the editor only when the figures were
        stored; nothing else of the section changes. */
    method HandleSave(parse: string -> Option<int>, cache: Q.QueryCache, accepted: bool) returns (sent: Option<Q.Request>)
      requires cache.Valid()
      modifies section, cache
      ensures sent == SaveStatsRequest(playerNumber, parse(form.gp), parse(form.goals), parse(form.assists), password)
      ensures cache.Valid() && cache.entries == old(cache.entries)
      ensures cache.stale == if sent.Some? then Q.StaleAfter(old(cache.stale), old(cache.entries).Keys, Q.SetPlayerStats, accepted) else old(cache.stale)
      ensures section.statsOpenFor == if sent.Some? && accepted then None else old(section.statsOpenFor)
      ensures section.form == old(section.form) && section.editing == old(section.editing)
      ensures section.editForm == old(section.editForm)
    {
      sent := SaveStatsRequest(playerNumber, parse(form.gp), parse(form.goals), parse(form.assists), password);
      assert sent.Some? ==> Q.KindOf(sent.value) == Q.SetPlayerStats;
      var done := Submit(cache, sent, accepted);
      if done {
        section.CloseStats();
      }
    }

    /** The cancel button: the section closes the editor without saving. */
    method Cancel()
      modifies section
      ensures section.statsOpenFor == None && !Shown()
      ensures section.form == old(section.form) && section.editing == old(section.editing)
      ensures section.editForm == old(section.editForm)
    {
      section.CloseStats();
    }
  }

  /** The games section: the add form and the score form of one game. */
  class GamesSection {
    const password: string
    var form: GameForm
    var scoreForm: Option<ScoreForm>

    constructor (password: string)
      ensures this.password == password && form == EmptyGameForm && scoreForm == None
    {
      this.password := password;
      form := EmptyGameForm;
      scoreForm := None;
    }

    method HandleAdd(cache: Q.QueryCache, accepted: bool) returns (sent: Option<Q.Request>)
      requires cache.Valid()
      modifies this, cache
      ensures sent == AddGameRequest(old(form), password)
      ensures cache.Valid() && cache.entries == old(cache.entries)
      ensures cache.stale == if sent.Some? then Q.StaleAfter(old(cache.stale), old(cache.entries).Keys, Q.AddGame, accepted) else old(cache.stale)
      ensures form == if sent.Some? && accepted then EmptyGameForm else old(form)
      ensures scoreForm == old(scoreForm)
    {
      sent := AddGameRequest(form, password);
      assert sent.Some? ==> Q.KindOf(sent.value) == Q.AddGame;
      var done := Submit(cache, sent, accepted);
      if done {
        form := EmptyGameForm;
      }
    }

    /** The score button opens the score form on that game with both scores
        at `"0"`. */
    method OpenScoreForm(gameId: int)
      modifies this
      ensures scoreForm == Some(ScoreForm(gameId, "0", "0")) && form == old(form)
    {
      scoreForm := Some(ScoreForm(gameId, "0", "0"));
    }

    method CancelScore()
      modifies this
      ensures scoreForm == None && form == old(form)
    {
      scoreForm := None;
    }

    method HandleUpdateScore(parse: string -> Option<int>, cache: Q.QueryCache, accepted: bool) returns (sent: Option<Q.Request>)
      requires cache.Valid()
      modifies this, cache
      ensures sent == if old(scoreForm).None? then None
                      else UpdateScoreRequest(old(scoreForm), parse(old(scoreForm).value.homeScore), parse(old(scoreForm).value.awayScore), password)
      ensures cache.Valid() && cache.entries == old(cache.entries)
      ensures cache.stale == if sent.Some? then Q.StaleAfter(old(cache.stale), old(cache.entries).Keys, Q.UpdateGameScores, accepted) else old(cache.stale)
      ensures scoreForm == if sent.Some? && accepted then None else old(scoreForm)
      ensures form == old(form)
    {
      if scoreForm.None? {
        return None;
      }
      sent := UpdateScoreRequest(scoreForm, parse(scoreForm.value.homeScore), parse(scoreForm.value.awayScore), password);
      assert sent.Some? ==> Q.KindOf(sent.value) == Q.UpdateGameScores;
      var done := Submit(cache, sent, accepted);
      if done {
        scoreForm := None;
      }
    }

    method HandleRemove(id: int, confirmed: bool, cache: Q.QueryCache, accepted: bool) returns (sent: Option<Q.Request>)
      requires cache.Valid()
      modifies cache
      ensures sent == RemoveGameRequest(id, confirmed, password)
      ensures cache.Valid() && cache.entries == old(cache.entries)
      ensures cache.stale == if confirmed then Q.StaleAfter(old(cache.stale), old(cache.entries).Keys, Q.RemoveGame, accepted) else old(cache.stale)
    {
      sent := RemoveGameRequest(id, confirmed, password);
      assert sent.Some? ==> Q.KindOf(sent.value) == Q.RemoveGame;
      var _ := Submit(cache, sent, accepted);
    }
  }

  /** The news section: the add form and the post being edited with its form. */
  class NewsSection {
    const password: string
    var form: NewsForm
    var editing: Option<B.NewsPost>
    var editForm: NewsForm

    constructor (password: string)
      ensures this.password == password && form == EmptyNewsForm && editing == None && editForm == EmptyNewsForm
    {
      this.password := password;
      form := EmptyNewsForm;
      editing := None;
      editForm := EmptyNewsForm;
    }

    method HandleAdd(cache: Q.QueryCache, accepted: bool) returns (sent: Option<Q.Request>)
      requires cache.Valid()
      modifies this, cache
      ensures sent == AddNewsRequest(old(form), password)
      ensures cache.Valid() && cache.entries == old(cache.entries)
      ensures cache.stale == if sent.Some? then Q.StaleAfter(old(cache.stale), old(cache.entries).Keys, Q.AddNewsPost, accepted) else old(cache.stale)
      ensures form == if sent.Some? && accepted then EmptyNewsForm else old(form)
      ensures editing == old(editing) && editForm == old(editForm)
    {
      sent := AddNewsRequest(form, password);
      assert sent.Some? ==> Q.KindOf(sent.value) == Q.AddNewsPost;
      var done := Submit(cache, sent, accepted);
      if done {
        form := EmptyNewsForm;
      }
    }

    method StartEdit(post: B.NewsPost)
      modifies this
      ensures editing == Some(post) && editForm == NewsForm(post.title, post.body, post.date)
      ensures form == old(form)
    {
      editing := Some(post);
      editForm := NewsForm(post.title, post.body, post.date);
    }

    method CancelEdit()
      modifies this
      ensures editing == None && form == old(form) && editForm == old(editForm)
    {
      editing := None;
    }

    method HandleUpdate(cache: Q.QueryCache, accepted: bool) returns (sent: Option<Q.Request>)
      requires cache.Valid()
      modifies this, cache
      ensures sent == UpdateNewsRequest(old(editing), old(editForm), password)
      ensures cache.Valid() && cache.entries == old(cache.entries)
      ensures cache.stale == if sent.Some? then Q.StaleAfter(old(cache.stale), old(cache.entries).Keys, Q.UpdateNewsPost, accepted) else old(cache.stale)
      ensures editing == if sent.Some? && accepted then None else old(editing)
      ensures form == old(form) && editForm == old(editForm)
    {
      sent := UpdateNewsRequest(editing, editForm, password);
      assert sent.Some? ==> Q.KindOf(sent.value) == Q.UpdateNewsPost;
      var done := Submit(cache, sent, accepted);
      if done {
        editing := None;
      }
    }

    method HandleRemove(id: int, confirmed: bool, cache: Q.QueryCache, accepted: bool) returns (sent: Option<Q.Request>)
      requires cache.Valid()
      modifies cache
      ensures sent == RemoveNewsRequest(id, confirmed, password)
      ensures cache.Valid() && cache.entries == old(cache.entries)
      ensures cache.stale == if confirmed then Q.StaleAfter(old(cache.stale), old(cache.entries).Keys, Q.RemoveNewsPost, accepted) else old(cache.stale)
    {
      sent := RemoveNewsRequest(id, confirmed, password);
      assert sent.Some? ==> Q.KindOf(sent.value) == Q.RemoveNewsPost;
      var _ := Submit(cache, sent, accepted);
    }
  }

  /** The team record section: its form, filled once from the first record
      that arrives. */
  class TeamInfoSection {
    const password: string
    var form: TeamInfoForm
    var initialized: bool

    constructor (password: string)
      ensures this.password == password && form == EmptyTeamInfoForm && !initialized
    {
      this.password := password;
      form := EmptyTeamInfoForm;
      initialized := false;
    }

    /** A render with the record at hand fills the form the first time only;
        later renders keep what was typed. */
    method Render(teamInfo: Option<B.TeamInfo>)
      modifies this
      ensures initialized == (old(initialized) || teamInfo.Some?)
      ensures form == if !old(initialized) && teamInfo.Some? then TeamInfoFormOf(teamInfo.value) else old(form)
    {
      if teamInfo.Some? && !initialized {
        initialized := true;
        form := TeamInfoFormOf(teamInfo.value);
      }
    }

    /** Submit: the form is kept as it is whatever the outcome. */
    method HandleSubmit(parse: string -> Option<int>, cache: Q.QueryCache, accepted: bool) returns (sent: Option<Q.Request>)
      requires cache.Valid()
      modifies cache
      ensures sent == TeamInfoRequest(parse(form.wins), parse(form.losses), parse(form.overtimeLosses),
                                      parse(form.points), parse(form.leaguePosition), password)
      ensures cache.Valid() && cache.entries == old(cache.entries)
      ensures cache.stale == if sent.Some? then Q.StaleAfter(old(cache.stale), old(cache.entries).Keys, Q.UpdateTeamInfo, accepted) else old(cache.stale)
    {
      sent := TeamInfoRequest(parse(form.wins), parse(form.losses), parse(form.overtimeLosses),
                              parse(form.points), parse(form.leaguePosition), password);
      assert sent.Some? ==> Q.KindOf(sent.value) == Q.UpdateTeamInfo;
      var _ := Submit(cache, sent, accepted);
    }
  }
}
