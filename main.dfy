/**
 * `generate_presence` of `src/main.py`: picks one of the three payload
 * constructors from the user's playing and lobby flags.
 */
module Main {
  import opened Wrappers
  import opened Text
  import opened Models

  /** What `generate_presence` demands: the lobby branch must be able to finish. */
  predicate PresenceInputsOk(user: User, games: seq<Game>) {
    user.IsPlaying() && user.IsInLobby() ==> LobbyInputsOk(user, games)
  }

  /**
   * The payload `generate_presence` returns, as a function of its inputs.
   * It repeats the dispatch of `GeneratePresence` because that method calls
   * the method `MakeLobby`, and the lemmas below need a function to talk about.
   */
  function Derived(user: User, games: seq<Game>, config: Config): PresenceUpdate
    requires PresenceInputsOk(user, games)
  {
    if user.IsPlaying() then
      if user.IsInLobby() then LobbyPresence(user, games) else MakeSimple(user, games, config)
    else Idle()
  }

  /**
   * `generate_presence`: the lobby payload for a player in a lobby, the simple
   * payload for a player outside one, and the idle payload otherwise. The
   * console messages are not modelled.
   */
  method GeneratePresence(user: User, games: seq<Game>, config: Config) returns (p: PresenceUpdate)
    requires PresenceInputsOk(user, games)
    ensures p == Derived(user, games, config)
  {
    if user.IsPlaying() {
      if user.IsInLobby() {
        p := MakeLobby(user, games, config);
        return;
      }
      return MakeSimple(user, games, config);
    }
    return Idle();
  }

  /** Without a game id the payload is idle, whatever the catalog, the configuration or the lobby id. */
  lemma NotPlayingIsIdle(user: User, games: seq<Game>, config: Config)
    requires user.gameid.None?
    ensures PresenceInputsOk(user, games) && Derived(user, games, config) == Idle()
  {
  }

  /** A player in a lobby gets exactly what `make_lobby` builds, its idle fallback included. */
  lemma PlayingInLobbyIsLobby(user: User, games: seq<Game>, config: Config)
    requires user.gameid.Some? && user.lobbysteamid.Some? && LobbyInputsOk(user, games)
    ensures Derived(user, games, config) == LobbyPresence(user, games)
  {
  }

  /** A player outside a lobby sees the live game name and a single button. */
  lemma PlayingOutsideLobbyIsSimple(user: User, games: seq<Game>, config: Config)
    requires user.gameid.Some? && user.lobbysteamid.None?
    ensures PresenceInputsOk(user, games)
    ensures Derived(user, games, config) == MakeSimple(user, games, config)
    ensures Derived(user, games, config).state == user.gameextrainfo
    ensures Derived(user, games, config).buttons == Some([DownloadButton()])
  {
  }

  /** The configuration is passed along but never read: it cannot change the payload. */
  lemma ConfigNeverRead(user: User, games: seq<Game>, c1: Config, c2: Config)
    requires PresenceInputsOk(user, games)
    ensures Derived(user, games, c1) == Derived(user, games, c2)
  {
  }

  /**
   * The idle payload is shown exactly when the user is not in a game, or sits
   * in a lobby of a game the catalog does not hold.
   */
  lemma IdleExactly(user: User, games: seq<Game>, config: Config)
    requires PresenceInputsOk(user, games)
    ensures Derived(user, games, config) == Idle()
        <==> !user.IsPlaying() || (user.IsInLobby() && MatchIndex(user, games).None?)
  {
    var p := Derived(user, games, config);
    if user.IsPlaying() && user.IsInLobby() && MatchIndex(user, games).Some? {
      assert p.large_image == Some(user.avatarfull);
    } else if user.IsPlaying() && !user.IsInLobby() {
      assert p.large_image == Some(user.avatar);
    }
  }

  /**
   * Every payload keeps the fields no constructor sets at their defaults and
   * carries one or two buttons, the download link last.
   */
  lemma DerivedShape(user: User, games: seq<Game>, config: Config)
    requires PresenceInputsOk(user, games)
    ensures var p := Derived(user, games, config);
      && UntouchedFieldsDefault(p)
      && p.buttons.Some? && 1 <= |p.buttons.value| <= 2
      && p.buttons.value[|p.buttons.value| - 1] == DownloadButton()
  {
    if user.IsPlaying() && user.IsInLobby() && MatchIndex(user, games).Some? {
      var p := LobbyVariant(user, games[MatchIndex(user, games).value]);
      assert p.buttons.value[1] == DownloadButton();
    }
  }

  /** 600 minutes of play read as "10h total playtime". */
  lemma TenHoursDetails(game: Game)
    requires game.playtime_forever == Some(600)
    ensures PlaytimeDetails(game) == "10h total playtime"
  {
    assert game.TotalPlaytimeHours() == 10;
    assert NatToString(1) == ['1'] && NatToString(10) == NatToString(1) + ['0'];
    assert IntToString(10) == "10";
    assert PlaytimeDetails(game) == IntToString(10) + PlaytimeSuffix;
  }

  /** The game id "440" matches the catalog entry with appid 440. */
  lemma GameId440(user: User, games: seq<Game>)
    requires user.gameid == Some("440") && |games| == 1 && games[0].appid == 440
    ensures GameIdConvertible(user, games) && MatchIndex(user, games) == Some(0)
  {
    assert ParseInt("440") == Some(440) by {
      assert AllDigits("440");
      assert DigitsValue("440") == DigitsValue("44") * 10 + 0;
      assert DigitsValue("44") == DigitsValue("4") * 10 + 4;
    }
  }

  /**
   * A user in a Team Fortress 2 lobby, with that game and 600 minutes of
   * playtime in the catalog, is shown the game name, "10h total playtime" and
   * a join link to the lobby.
   */
  lemma TeamFortressLobby(config: Config)
    ensures var user := User("1", "player", "avatar.jpg", "avatar_full.jpg", 1,
                             Some("Team Fortress 2"), Some("440"), Some("999"));
      var games := [Game(440, "Team Fortress 2", Some(600), Some("e3f595a9"))];
      && PresenceInputsOk(user, games)
      && var p := Derived(user, games, config);
      && p.state == Some("Team Fortress 2")
      && p.details == Some("10h total playtime")
      && p.buttons.value[0] == Button("Join Lobby", "steam://joinlobby/440/999/1")
  {
    var user := User("1", "player", "avatar.jpg", "avatar_full.jpg", 1,
                     Some("Team Fortress 2"), Some("440"), Some("999"));
    var games := [Game(440, "Team Fortress 2", Some(600), Some("e3f595a9"))];
    GameId440(user, games);
    TenHoursDetails(games[0]);
    assert Derived(user, games, config) == LobbyVariant(user, games[0]);
    assert user.JoinUri() == "steam://joinlobby/440/999/1";
  }
}
