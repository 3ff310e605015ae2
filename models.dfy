/**
 * The records of `src/models.py` and the payload constructors that turn a
 * Steam user snapshot and the owned-games catalog into a Discord rich
 * presence update.
 */
module Models {
  import opened Wrappers
  import opened Text

  /** Settings read from the configuration file; no derivation reads them. */
  datatype Config = Config(
    discord_application_id: string,
    steam_api_key: string,
    steam_id: string,
    autostart: bool,
    show_invite_button: bool,
    show_all_games: bool,
    allowed_games: Option<seq<string>>)

  const IconUrlPrefix: string := "http://media.steampowered.com/steamcommunity/public/images/apps/"

  /** One entry of the owned-games catalog (the fields the derivation reads). */
  datatype Game = Game(
    appid: int,
    name: string,
    playtime_forever: Option<int>,
    img_icon_url: Option<string>)
  {
    /** The Steam CDN address of the game's icon; an absent icon hash prints as "None". */
    function IconUrl(): (url: string)
      ensures IconUrlPrefix <= url
    {
      IconUrlPrefix + IntToString(appid) + "/" + PyStr(img_icon_url) + ".jpg"
    }

    /**
     * Minutes played, floor-divided by 60. Python's `None // 60` raises, so the
     * playtime must be present. Dafny's `/` by a positive divisor rounds down
     * like Python's `//`, negative minutes included.
     */
    function TotalPlaytimeHours(): (hours: int)
      requires playtime_forever.Some?
      ensures hours * 60 <= playtime_forever.value < hours * 60 + 60
    {
      playtime_forever.value / 60
    }
  }

  /** Persona state codes of the Steam Web API. */
  datatype PersonaState = Offline | Online | Busy | Away | Snooze | LookingToTrade | LookingToPlay

  /** The documented meaning of a persona state code; codes outside 0..6 have none. */
  function PersonaStateOf(code: int): Option<PersonaState> {
    match code
    case 0 => Some(Offline)
    case 1 => Some(Online)
    case 2 => Some(Busy)
    case 3 => Some(Away)
    case 4 => Some(Snooze)
    case 5 => Some(LookingToTrade)
    case 6 => Some(LookingToPlay)
    case _ => None
  }

  const JoinUriPrefix: string := "steam://joinlobby/"

  /** A Steam user snapshot (the fields the derivation reads). */
  datatype User = User(
    steamid: string,
    personaname: string,
    avatar: string,
    avatarfull: string,
    personastate: int,
    gameextrainfo: Option<string>,
    gameid: Option<string>,
    lobbysteamid: Option<string>)
  {
    /** The steam:// link that joins the user's lobby; absent ids print as "None". */
    function JoinUri(): (uri: string)
      ensures JoinUriPrefix <= uri
    {
      JoinUriPrefix + PyStr(gameid) + "/" + PyStr(lobbysteamid) + "/" + steamid
    }

    /** The user shows as online exactly when the persona state code means Online. */
    function IsOnline(): (online: bool)
      ensures online <==> PersonaStateOf(personastate) == Some(Online)
    {
      personastate == 1
    }

    /** A game id is reported exactly while the user is in a game. */
    predicate IsPlaying() {
      gameid.Some?
    }

    /** A lobby id is reported exactly while the user sits in a joinable lobby. */
    predicate IsInLobby() {
      lobbysteamid.Some?
    }
  }

  /** One `{'label': ..., 'url': ...}` button of the presence; `caption` holds the label (`label` is a Dafny keyword). */
  datatype Button = Button(caption: string, url: string)

  const ProjectUrl: string := "https://github.com/EchterTimo/SteamRPC"

  /** The button every payload ends with. */
  function DownloadButton(): Button {
    Button("Download SteamRPC", ProjectUrl)
  }

  /**
   * The payload handed to Discord. `match_secret` is the source's `match`
   * field (a Dafny keyword); `payload_override` is a dictionary the source
   * never fills, modelled as a string map.
   */
  datatype PresenceUpdate = PresenceUpdate(
    state: Option<string>,
    details: Option<string>,
    start: Option<int>,
    end: Option<int>,
    large_image: Option<string>,
    large_text: Option<string>,
    small_image: Option<string>,
    small_text: Option<string>,
    party_id: Option<string>,
    party_size: Option<seq<int>>,
    join: Option<string>,
    spectate: Option<string>,
    match_secret: Option<string>,
    buttons: Option<seq<Button>>,
    instance: bool,
    payload_override: Option<map<string, string>>)

  /** `PresenceUpdate()` with every field at its declared default. */
  function Blank(): PresenceUpdate {
    PresenceUpdate(None, None, None, None, None, None, None, None,
                   None, None, None, None, None, None, true, None)
  }

  /** The fields no constructor sets still hold their defaults. */
  predicate UntouchedFieldsDefault(p: PresenceUpdate) {
    && p.start.None? && p.end.None?
    && p.party_id.None? && p.party_size.None?
    && p.join.None? && p.spectate.None? && p.match_secret.None?
    && p.instance && p.payload_override.None?
  }

  /** The shown payload while no game runs: a constant Steam label and the download link. */
  function Idle(): (p: PresenceUpdate)
    ensures p.state == Some("Idle") && p.details == Some("No game running")
    ensures p.large_text == Some("Steam") && p.buttons == Some([DownloadButton()])
    ensures p.large_image.None? && p.small_image.None? && p.small_text.None?
    ensures UntouchedFieldsDefault(p)
  {
    Blank().(state := Some("Idle"),
             details := Some("No game running"),
             large_text := Some("Steam"),
             buttons := Some([DownloadButton()]))
  }

  /**
   * The payload while the user plays outside a lobby: the live game name Steam
   * reports, the small avatar, and the download link. The catalog and the
   * configuration are accepted and not read.
   */
  function MakeSimple(user: User, games: seq<Game>, config: Config): (p: PresenceUpdate)
    ensures p.state == user.gameextrainfo && p.details.None?
    ensures p.large_image == Some(user.avatar) && p.large_text == Some(user.personaname)
    ensures p.small_image.None? && p.small_text.None?
    ensures p.buttons == Some([DownloadButton()])
    ensures UntouchedFieldsDefault(p)
  {
    Blank().(state := user.gameextrainfo,
             details := None,
             large_image := Some(user.avatar),
             large_text := Some(user.personaname),
             small_image := None,
             small_text := None,
             buttons := Some([DownloadButton()]))
  }

  const PlaytimeSuffix: string := "h total playtime"

  /** The details line of a lobby payload: whole hours played, then a fixed suffix. */
  function PlaytimeDetails(game: Game): (text: string)
    requires game.playtime_forever.Some?
    ensures |text| > |PlaytimeSuffix| && text[|text| - |PlaytimeSuffix|..] == PlaytimeSuffix
    ensures CanonicalInt(text[..|text| - |PlaytimeSuffix|])
    ensures ParseInt(text[..|text| - |PlaytimeSuffix|]) == Some(game.TotalPlaytimeHours())
  {
    var text := IntToString(game.TotalPlaytimeHours()) + PlaytimeSuffix;
    assert text[..|text| - |PlaytimeSuffix|] == IntToString(game.TotalPlaytimeHours());
    ParseIntOfIntToString(game.TotalPlaytimeHours());
    text
  }

  /** The lobby payload for a user whose game was found in the catalog. */
  function LobbyVariant(user: User, game: Game): (p: PresenceUpdate)
    requires game.playtime_forever.Some?
    ensures p.state == Some(game.name) && p.small_text == Some(game.name)
    ensures p.details == Some(PlaytimeDetails(game))
    ensures p.large_image == Some(user.avatarfull) && p.large_text == Some(user.personaname)
    ensures p.small_image == Some(game.IconUrl())
    ensures p.buttons == Some([Button("Join Lobby", user.JoinUri()), DownloadButton()])
    ensures UntouchedFieldsDefault(p)
  {
    Blank().(state := Some(game.name),
             details := Some(PlaytimeDetails(game)),
             large_image := Some(user.avatarfull),
             large_text := Some(user.personaname),
             small_image := Some(game.IconUrl()),
             small_text := Some(game.name),
             buttons := Some([Button("Join Lobby", user.JoinUri()), DownloadButton()]))
  }

  /** The index of the first catalog entry whose appid equals `id`, if any. */
  function FirstMatch(games: seq<Game>, id: int): (r: Option<nat>)
    ensures r.Some? ==> r.value < |games| && games[r.value].appid == id
    ensures r.Some? ==> forall j :: 0 <= j < r.value ==> games[j].appid != id
    ensures r.None? <==> forall j :: 0 <= j < |games| ==> games[j].appid != id
  {
    if |games| == 0 then None
    else if games[0].appid == id then Some(0)
    else match FirstMatch(games[1..], id)
      case None => None
      case Some(k) => Some(k + 1)
  }

  /**
   * `int(user.gameid)` is evaluated once the catalog has an entry to compare,
   * so from then on the game id must be a decimal string (Python raises
   * `TypeError` on `None` and `ValueError` on anything else).
   */
  predicate GameIdConvertible(user: User, games: seq<Game>) {
    |games| > 0 ==> user.gameid.Some? && ParseInt(user.gameid.value).Some?
  }

  /** The catalog position `make_lobby` settles on, if any. */
  function MatchIndex(user: User, games: seq<Game>): Option<nat>
    requires GameIdConvertible(user, games)
  {
    if |games| == 0 then None else FirstMatch(games, ParseInt(user.gameid.value).value)
  }

  /** What `make_lobby` demands of its inputs to finish without raising. */
  predicate LobbyInputsOk(user: User, games: seq<Game>) {
    && GameIdConvertible(user, games)
    && (MatchIndex(user, games).Some? ==> games[MatchIndex(user, games).value].playtime_forever.Some?)
  }

  /** The payload `make_lobby` produces: the lobby variant of the first matching game, else idle. */
  function LobbyPresence(user: User, games: seq<Game>): PresenceUpdate
    requires LobbyInputsOk(user, games)
  {
    match MatchIndex(user, games)
    case None => Idle()
    case Some(i) => LobbyVariant(user, games[i])
  }

  /**
   * `make_lobby`: scan the catalog in order for the entry whose appid equals
   * `int(user.gameid)`, stop at the first one, and build the lobby payload
   * from it; without a match the payload is the idle one.
   */
  method MakeLobby(user: User, games: seq<Game>, config: Config) returns (p: PresenceUpdate)
    requires LobbyInputsOk(user, games)
    ensures p == LobbyPresence(user, games)
  {
    var game: Option<Game> := None;
    var i := 0;
    while i < |games|
      invariant 0 <= i <= |games|
      invariant game.None?
      invariant forall j :: 0 <= j < i ==> games[j].appid != ParseInt(user.gameid.value).value
    {
      if games[i].appid == ParseInt(user.gameid.value).value {
        game := Some(games[i]);
        break;
      }
      i := i + 1;
    }
    if game.None? {
      return Idle();
    }
    return LobbyVariant(user, game.value);
  }

  /** Where the slashes of the join link's fixed part sit. */
  lemma JoinUriPrefixLayout(tail: string)
    ensures var s := JoinUriPrefix + tail;
      && s[..6] == "steam:" && s[6] == '/'
      && s[7..][0] == '/'
      && s[8..][..9] == "joinlobby" && s[8..][9] == '/' && s[8..][10..] == tail
  {
    assert |JoinUriPrefix| == 18 && JoinUriPrefix[..6] == "steam:" && JoinUriPrefix[8..17] == "joinlobby";
    var s := JoinUriPrefix + tail;
    assert s[..6] == JoinUriPrefix[..6];
    assert s[8..][..9] == JoinUriPrefix[8..17];
    assert s[8..][10..] == tail;
  }

  /** The fixed part of the join link splits into its three path pieces. */
  lemma JoinUriPrefixPieces(tail: string)
    ensures Split(JoinUriPrefix + tail, '/') == ["steam:", "", "joinlobby"] + Split(tail, '/')
  {
    var s := JoinUriPrefix + tail;
    JoinUriPrefixLayout(tail);
    SplitAtFirst(s, '/', 6);
    assert s[7..][1..] == s[8..];
    SplitAtFirst(s[7..], '/', 0);
    SplitAtFirst(s[8..], '/', 9);
  }

  /**
   * Splitting the join link at its slashes recovers the game id, the lobby id
   * and the Steam id, provided none of them contains a slash.
   */
  lemma JoinUriFields(user: User)
    requires '/' !in PyStr(user.gameid) && '/' !in PyStr(user.lobbysteamid) && '/' !in user.steamid
    ensures Split(user.JoinUri(), '/')
         == ["steam:", "", "joinlobby", PyStr(user.gameid), PyStr(user.lobbysteamid), user.steamid]
  {
    var g, l, s := PyStr(user.gameid), PyStr(user.lobbysteamid), user.steamid;
    assert user.JoinUri() == JoinUriPrefix + (g + ['/'] + (l + ['/'] + s));
    JoinUriPrefixPieces(g + ['/'] + (l + ['/'] + s));
    SplitAfterPiece(g, '/', l + ['/'] + s);
    SplitAfterPiece(l, '/', s);
    SplitWithoutSeparator(s, '/');
  }

  /**
   * The icon address names the game: after the fixed CDN prefix come exactly
   * two path pieces, one that reads back as the appid and the icon hash with
   * ".jpg" appended.
   */
  lemma IconUrlNamesGame(game: Game)
    requires '/' !in PyStr(game.img_icon_url)
    ensures var parts := Split(game.IconUrl()[|IconUrlPrefix|..], '/');
      && |parts| == 2
      && CanonicalInt(parts[0]) && ParseInt(parts[0]) == Some(game.appid)
      && parts[1] == PyStr(game.img_icon_url) + ".jpg"
  {
    var a, h := IntToString(game.appid), PyStr(game.img_icon_url) + ".jpg";
    NoSlashInIntToString(game.appid);
    ParseIntOfIntToString(game.appid);
    assert '/' !in h by {
      assert h == PyStr(game.img_icon_url) + ['.', 'j', 'p', 'g'];
    }
    assert game.IconUrl()[|IconUrlPrefix|..] == a + ['/'] + h;
    SplitAfterPiece(a, '/', h);
    SplitWithoutSeparator(h, '/');
  }

  /** A user who is not in any catalog game's lobby gets the idle payload, an empty catalog included. */
  lemma LobbyWithoutMatchIsIdle(user: User, games: seq<Game>)
    requires GameIdConvertible(user, games)
    requires |games| > 0 ==> forall j :: 0 <= j < |games| ==> games[j].appid != ParseInt(user.gameid.value).value
    ensures LobbyInputsOk(user, games) && LobbyPresence(user, games) == Idle()
  {
  }

  /** With a match at `i` and none before it, the payload describes `games[i]`. */
  lemma LobbyUsesFirstMatch(user: User, games: seq<Game>, i: nat)
    requires GameIdConvertible(user, games) && i < |games|
    requires games[i].appid == ParseInt(user.gameid.value).value
    requires forall j :: 0 <= j < i ==> games[j].appid != games[i].appid
    requires games[i].playtime_forever.Some?
    ensures LobbyInputsOk(user, games) && LobbyPresence(user, games) == LobbyVariant(user, games[i])
  {
    var found := FirstMatch(games, games[i].appid);
    assert found.Some? && found.value <= i;
    assert MatchIndex(user, games) == Some(i);
  }

  /** Entries after the first match are never consulted: appending to the catalog changes nothing. */
  lemma {:induction false} FirstMatchIgnoresLaterEntries(games: seq<Game>, more: seq<Game>, id: int)
    requires FirstMatch(games, id).Some?
    ensures FirstMatch(games + more, id) == FirstMatch(games, id)
  {
    if games[0].appid != id {
      assert (games + more)[1..] == games[1..] + more;
      FirstMatchIgnoresLaterEntries(games[1..], more, id);
    }
  }

  /** Once the catalog holds the user's game, further entries leave the lobby payload unchanged. */
  lemma LobbyIgnoresLaterEntries(user: User, games: seq<Game>, more: seq<Game>)
    requires LobbyInputsOk(user, games) && MatchIndex(user, games).Some?
    ensures LobbyInputsOk(user, games + more)
    ensures LobbyPresence(user, games + more) == LobbyPresence(user, games)
  {
    FirstMatchIgnoresLaterEntries(games, more, ParseInt(user.gameid.value).value);
  }
}
