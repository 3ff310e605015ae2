# SteamRPC presence derivation in Dafny

SteamRPC mirrors a Steam user's current activity into Discord's rich presence.
On every poll it takes a snapshot of the Steam user and the catalog of games
the user owns, which is fetched once at startup. From these it builds one
`PresenceUpdate` payload. This project models that derivation and proves what
it promises:

- `wrappers.dfy`: `Option`, which stands for Python's `None`.
- `text.dfy`: the Python string conversions the payloads use. These are `str()`
  of an optional string and of an `int` inside an f-string, and `int()` of a
  decimal string. The module proves the `int(str(i)) == i` round trip. It also
  proves that the canonical form `str()` prints, together with the value,
  fixes the text. `Split` (`str.split` on one character) is not used by the
  source. It only serves to state how the URL templates are read back.
- `models.dfy` (`src/models.py`): the records `Config`, `Game`, `User`,
  `Button` and `PresenceUpdate`, and the derived properties `icon_url`,
  `total_playtime_hours`, `join_uri`, `is_online`, `is_playing` and
  `is_in_lobby`. It also has the three payload constructors `idle`,
  `make_simple` and `make_lobby`. `make_lobby` keeps the source's form: a loop
  over the catalog that stops at the first entry whose appid equals
  `int(user.gameid)`. It is proved against the function `LobbyPresence`, which
  uses the first-match search `FirstMatch`.
- `main.dfy` (`src/main.py`): `generate_presence`, the nested test of
  `is_playing` and then `is_in_lobby`, which selects the constructor. It is
  proved against the function `Derived`. Lemmas state each branch, the idle
  fallback, the fact that the configuration is never read, and the shape every
  payload has.

Points where the model follows the code rather than the intended design:

- `Game.total_playtime_hours` computes `None // 60` when `playtime_forever` is
  absent, and Python raises on that. The model does not substitute 0 or drop
  the details line. The lobby branch instead requires that the matched game
  has a playtime (`LobbyInputsOk`).
- The configuration has `show_invite_button`, `show_all_games` and
  `allowed_games`, but no derivation reads them. The model does no filtering by
  them. `ConfigNeverRead` proves that the configuration cannot change the
  payload.
- `int(user.gameid)` runs only when the catalog has an entry to compare. An
  unparsable game id is therefore harmless when the catalog is empty, and the
  precondition `GameIdConvertible` demands a decimal game id only when the
  catalog is non-empty.
- An f-string renders an absent optional value as `None`. So `join_uri` and
  `icon_url` print `None` for an absent game id, lobby id or icon hash (`PyStr`).

## Model

| member | source | states |
|---|---|---|
| `Text.ParseIntOfIntToString` | src/models.py:185 | `int(str(i)) == i` for every integer (no digit limit modelled), so a catalog appid printed in decimal and used as the game id is matched by the `int()` comparison |
| `Text.NatToString` | src/models.py:195 | the decimal text of a count is a non-empty string of digits with no leading zero, and starts with "0" only for zero |
| `Text.IntToString` | src/models.py:195 | `str()` of an integer is in canonical form (digits with no leading zero, a minus sign only before a non-zero number) and starts with "-" exactly when the number is negative |
| `Text.CanonicalIntIsIntToString` | src/models.py:195 | a text in canonical form is exactly `str()` of the value `int()` reads from it, so canonical form plus value fix the printed text |
| `Models.Game.IconUrl` | src/models.py:83-85 | the icon address always starts with the fixed Steam CDN prefix |
| `Models.IconUrlNamesGame` | src/models.py:83-85 | when the icon hash holds no slash, after the CDN prefix the icon address has exactly two path pieces: the first is in canonical form and reads back as the game's appid (so it is exactly `str(appid)`), the second is the icon hash (or "None") followed by ".jpg" |
| `Models.Game.TotalPlaytimeHours` | src/models.py:87-91 | defined only when `playtime_forever` is present; the result is the floor of minutes / 60, meaning `60*h <= minutes < 60*h + 60`, negative minutes included |
| `Models.User.JoinUri` | src/models.py:118-120 | the join link always starts with `steam://joinlobby/` |
| `Models.JoinUriFields` | src/models.py:118-120 | splitting the join link at its slashes gives `steam:`, an empty piece, `joinlobby`, then the game id, the lobby id and the Steam id in that order, when none of them contains a slash |
| `Models.User.IsOnline` | src/models.py:122-135 | the user counts as online exactly when the persona state code means Online in the documented 0..6 table |
| `Models.Idle` | src/models.py:218-230 | state "Idle", details "No game running", large text "Steam", exactly one button ("Download SteamRPC"), no images, and every other field at its default (`None`, `instance` true) |
| `Models.MakeSimple` | src/models.py:232-259 | state is the live `gameextrainfo`; details and both small fields are absent; large image is the avatar and large text the persona name; exactly one button; the catalog and configuration are not read |
| `Models.PlaytimeDetails` | src/models.py:195 | the details text ends with "h total playtime", and the part before that is in canonical form and reads back as the game's whole hours played (so it is exactly `str(hours)`) |
| `Models.LobbyVariant` | src/models.py:192-216 | state and small text are the game name; details is the playtime text; large image is `avatarfull` and large text the persona name; small image is the game's icon address; exactly two buttons, "Join Lobby" with the join link first and "Download SteamRPC" second; every other field keeps its default |
| `Models.FirstMatch` | src/models.py:184-187 | returns the least index whose appid equals the id; returns none exactly when no entry matches |
| `Models.MakeLobby` | src/models.py:175-216 | the scan that stops at the first entry whose appid equals `int(user.gameid)` returns the lobby payload of that entry, or the idle payload when none matches |
| `Models.LobbyWithoutMatchIsIdle` | src/models.py:183-190 | with no catalog entry matching the game id, the empty catalog included, `make_lobby` returns exactly `idle()` |
| `Models.LobbyUsesFirstMatch` | src/models.py:184-187 | when entry `i` matches and no earlier entry has its appid, the lobby payload describes entry `i` |
| `Models.FirstMatchIgnoresLaterEntries` | src/models.py:186-187 | once a match exists, appending entries to the catalog does not change which index is found |
| `Models.LobbyIgnoresLaterEntries` | src/models.py:184-190 | once the catalog holds the user's game, later entries, including ones with the same appid, never change the lobby payload |
| `Main.GeneratePresence` | src/main.py:28-36 | returns the payload `Derived` describes: lobby when playing and in a lobby, simple when only playing, idle otherwise |
| `Main.NotPlayingIsIdle` | src/main.py:29-36 | with no game id (`is_playing` false) the payload is `idle()`, whatever the catalog, the configuration or a lobby id |
| `Main.PlayingInLobbyIsLobby` | src/main.py:29-32 | with both a game id and a lobby id the payload is exactly `make_lobby`'s, its idle fallback included |
| `Main.PlayingOutsideLobbyIsSimple` | src/main.py:33-34 | with a game id and no lobby id the payload is `make_simple`'s: state is `gameextrainfo` and there is one button |
| `Main.ConfigNeverRead` | src/main.py:28-36 | two configurations give the same payload for the same user and catalog |
| `Main.IdleExactly` | src/main.py:28-36 | the payload equals `idle()` if and only if the user is not playing, or is in a lobby of a game the catalog lacks |
| `Main.DerivedShape` | src/models.py:146-173 | every payload keeps timestamps, party fields and the override unset with `instance` true, and has one or two buttons with "Download SteamRPC" last |
| `Main.TenHoursDetails` | src/models.py:87-91 | a game with 600 minutes of play shows "10h total playtime" |
| `Main.TeamFortressLobby` | src/models.py:192-216 | game id "440", lobby "999", Steam id "1" and a catalog holding appid 440 with 600 minutes give state "Team Fortress 2", details "10h total playtime" and a first button linking to `steam://joinlobby/440/999/1` |

## Left out

- `presence_loop` (src/main.py:39-56): connecting to Discord, the endless poll with a 15-second sleep, and the `DiscordNotFound` handler with its error log. This is I/O and timing against external clients.
- Module-level setup (src/main.py:20-25): loading the configuration file, constructing the Discord client and fetching the owned games. The catalog and configuration are parameters instead.
- The console `print` calls inside `generate_presence`.
- `Config.load_from_json_file` and `Config.create_default`: JSON file reading and writing. `Config` is a plain record.
- src/steam.py and src/utils.py: wrappers over the Steam web library and a timestamped log file. They are not part of this model.
- The `Game` and `User` fields no derivation reads (playtime breakdowns, visibility, location and similar) are dropped, and so is the `asdict` conversion to keyword arguments.
- `User.is_playing` and `User.is_in_lobby` are plain predicates (`gameid` present, `lobbysteamid` present). What they mean for the payload is stated by the `Main` lemmas.
- `Text.ParseInt` accepts an optional sign followed by ASCII digits. Python's `int()` also accepts surrounding whitespace, underscores between digits and non-ASCII digits. Game ids outside the modelled form are excluded by the precondition rather than modelled.
- `Text.ParseIntOfIntToString`: CPython 3.11 and later (and the security backports) raise `ValueError` when `str()` or `int()` converts a number of more than 4300 digits. That limit is not modelled, so the round trip is stated for every integer.
- `Models.IconUrlNamesGame` describes the part after the fixed CDN prefix only. It does not split the prefix itself into its path pieces.
- `payload_override` is an arbitrary dictionary in the source. It is modelled as a string map, and no constructor sets it.
