# League and tournament admin panel: a Dafny model

This project models the browser-side admin panel of a gaming league. The
panel keeps players (`usuarios`), teams (`equipos`), administrators
(`administradores`), two point rankings and single-elimination brackets,
all stored in a hosted relational store. The model covers:

- the bracket engine (setup, round 1 with byes, scoring, round advance, closing);
- the session and access gate (`AuthManager`, and the typed helpers of the newer client);
- the ranking screens;
- the admin pages for administrators, players and teams.

Each store table becomes a `seq` field of the manager class that writes it.
Each store call is one assignment to those fields. A reload re-reads the
rows from them.

Modules, one per source file, plus two shared ones:

| module | file | source |
|---|---|---|
| `Schema` | `schema.dfy` | row types shared by every page, and sequence helpers (`Filter`, `CountIf`, `FindIndex`, `Single`) for the store's query builder |
| `Sorting` | `sorting.dfy` | a stable insertion sort, standing in for JavaScript's stable `Array.prototype.sort`, with rank lemmas |
| `Auth` | `auth.dfy` | `js/auth.js` |
| `BracketDraw` | `bracket_draw.dfy` | the pure parts of `js/brackets.js`: sizing, seed order, pairings, judging a score, statistics |
| `Brackets` | `brackets.dfy` | the `BracketsManager` class of `js/brackets.js` |
| `Rankings` | `rankings.dfy` | `js/rankings.js` |
| `Admins` | `admin.dfy` | `js/admin.js` |
| `Usuarios` | `usuarios.dfy` | `js/usuarios.js` |
| `Equipos` | `equipos.dfy` | `js/equipos.js` |
| `WorkspaceAuth` | `auth_ts.dfy` | `workspace/src/utils/auth.ts` |

Modelling rules that apply throughout:

- **Nullable ids** are `Option<Id>`, and ids are positive, so a truthy id is `Some`.
- **Permissions.** A handler's access-level test reads the `userLevel` field of the `Auth.AuthManager` object it is handed.
- **Confirmations.** The answer to a `confirm()` dialog is a `confirmado` parameter.
- **Hashing.** The password digest is a `digest` parameter, and `None` stands for a failed digest call.
- **Time.** `Date.now()` is a `now` parameter.

## Model

| member | source | states |
|---|---|---|
| Auth.Hex | js/auth.js:104-105 | two lower-case hex digits per byte |
| Auth.HexRoundTrip | js/auth.js:104-105 | decoding the hex text gives the bytes back |
| Auth.HexInjective | js/auth.js:104-105 | different digests never give the same stored hash |
| Auth.FindActive | js/auth.js:59-64 | `.eq('usuario').eq('activo', true).single()` finds a row exactly when one active row has that name; the row it finds is active and has that name |
| Auth.AuthManager.constructor | js/auth.js:2-6 | nobody is signed in and the level is 0 |
| Auth.AuthManager.HasAccess | js/auth.js:225-227 | access is granted exactly when the current level is at least the required one |
| Auth.AuthManager.ValidateAdminUser | js/auth.js:30-53 | with no single active row for the name, the session is logged out; otherwise that row becomes the current user, with its level |
| Auth.AuthManager.Login | js/auth.js:55-97 | login succeeds exactly when one active row has the name and the hex digest equals its stored hash; success sets user, level and a session stamped `now`; failure changes nothing |
| Auth.AuthManager.Logout | js/auth.js:108-114 | no user, level 0, stored session removed |
| Auth.AuthManager.RestoreSession | js/auth.js:191-200 | a session younger than 24 hours is validated, an older one is removed, and no stored session means no change |
| BracketDraw.BracketSize | js/brackets.js:459 | a power of two, at least max(2, n), and half of it is below max(2, n) |
| BracketDraw.BracketSizeLeast | js/brackets.js:459 | no power of two at least max(2, n) is smaller than it |
| BracketDraw.Byes | js/brackets.js:501 | byes plus participants equal the bracket size; with two or more participants there are fewer byes than players |
| BracketDraw.ByesZeroIffPowerOfTwo | js/brackets.js:501 | there are no byes exactly when the participant count is a power of two |
| BracketDraw.SeedOrder | js/brackets.js:460-464 | the round-1 order is a permutation of the participants |
| BracketDraw.SeedOrderShape | js/brackets.js:460-464 | the seeded participants come first, then the unseeded ones in load order |
| BracketDraw.SeedOrderAscending | js/brackets.js:464 | the seeded block is in ascending seed order |
| BracketDraw.Round1PairsAt | js/brackets.js:515-543 | the first `byes` matches are byes for the first players; then player i meets the i-th player from the end; an odd player left over gets a bye |
| BracketDraw.Round1Covers | js/brackets.js:515-543 | every participant appears in round 1 exactly once (as a multiset) |
| BracketDraw.Round1Count | js/brackets.js:501-543 | round 1 has exactly bracketSize / 2 matches, since the players left after the byes are even in number |
| BracketDraw.GenerarPartidosRonda1 | js/brackets.js:499-546 | the byes loop, then the pairing, return the round-1 pairings of the ordered participants |
| BracketDraw.EmparejarRestantes | js/brackets.js:524-543 | the high-with-low loop and the odd bye pair the players exactly inward |
| BracketDraw.NextRoundPairs | js/brackets.js:940-964 | winners 2k and 2k+1 meet in match k, and an odd last winner gets a bye |
| BracketDraw.NextRoundCovers | js/brackets.js:940-964 | reading the next round's players in order gives the winners back |
| BracketDraw.MatchesFor | js/brackets.js:471-480 | one row per pairing with consecutive numbers and ids; a bye row is finished and won by its only player, and any other row is pending with no winner |
| BracketDraw.BuildNextRound | js/brackets.js:940-964 | the loop builds exactly the rows of the next-round pairings |
| BracketDraw.NextMatchAt | js/brackets.js:940-964 | match k of the next round as the loop writes it: pending between winners 2k and 2k+1, or a walkover for winner 2k |
| BracketDraw.Threshold | js/brackets.js:722 | never 0: the match's points to win, else the bracket's, else 3 |
| BracketDraw.Judge | js/brackets.js:710-729 | a missing side is a walkover for the present one; both at the threshold is refused; exactly one at the threshold wins, with the other as loser; otherwise the match goes on |
| BracketDraw.Finish | js/brackets.js:792-801 | the updated row is finished with the resolved winner and loser, keeps its id, bracket, round, number, players and threshold, and a first-player winner's column holds the winner's points |
| BracketDraw.FinishAfterWin | js/brackets.js:743-802 | finishing a decided match records that winner and loser, estado finalizado and the scores |
| BracketDraw.FinishWalkover | js/brackets.js:710-719 | a bye is finished for its player, with no loser |
| BracketDraw.StaleLoserPoints | js/brackets.js:772-775 | as written, a match stored at 1-2 and saved at 3-0 is finished at 3-2 and the loser is charged 2 |
| BracketDraw.ResolveEnteredKeepsScores | js/brackets.js:771-789 | with the entered scores used directly, the finished row holds exactly those scores, and the code agrees whenever neither entered score is 0 |
| BracketDraw.StatsAfter | js/brackets.js:835-842 | a win adds one victory and the points; a loss adds one defeat and subtracts them; the keys and the active flag stay |
| BracketDraw.LedgerAfter | js/brackets.js:867-889 | append-only: the old ledger is kept as a prefix, nothing is added exactly when the points are 0, otherwise one entry for that user and event with the signed points |
| BracketDraw.LedgerTracksStats | js/brackets.js:882-888 | the ledger entry moves the user's event total by exactly the change of the accumulated points |
| BracketDraw.RoundComplete | js/brackets.js:899-909 | complete exactly when the round has a match and every match in it is finished |
| BracketDraw.CurrentRound | js/brackets.js:903 | never 0, and a nonzero stored round is kept |
| BracketDraw.Winners | js/brackets.js:926-928 | each collected winner is the winner of some match of the round, every decided match of the round has its winner collected, and there are no more of them than matches |
| BracketDraw.WinnersConcat | js/brackets.js:926-928 | the winners of a concatenation are the winners of each part in order, so the list follows match order |
| BracketDraw.WinnersOne | js/brackets.js:926-928 | a single match contributes its winner exactly when it is of the round and decided |
| BracketDraw.WinnersAllDecided | js/brackets.js:926-928 | when every match of the round has a winner, there is one winner per match |
| Brackets.ReloadAfterRemove | js/brackets.js:303-315 | reloading after the soft delete gives the local list with that user filtered out |
| Brackets.StatsKeepRoster | js/brackets.js:835-842 | recording a result never changes who is active in a bracket |
| Brackets.ScoresKeepCompleteness | js/brackets.js:732-738 | storing scores changes no round's completeness |
| Brackets.FinishKeepsCompleteness | js/brackets.js:792-802 | finishing a match never reopens a complete round |
| Brackets.StatsMatchLedger | js/brackets.js:822-897 | one result moves the ledger total of exactly one (user, event) pair, by the change of that user's accumulated points |
| Brackets.BracketsManager.constructor | js/brackets.js:2-8 | nothing selected, and the tables as given |
| Brackets.BracketsManager.CargarBracketCompleto | js/brackets.js:145-199 | succeeds exactly for a stored bracket; loads that row, its active participants and its matches; no table changes |
| Brackets.BracketsManager.ClearBracketData | js/brackets.js:1032-1054 | the selection and both local lists are empty; no table changes |
| Brackets.BracketsManager.CrearBracket | js/brackets.js:66-113 | created exactly at level 1 with a name and at least 1 point to win; the new row is 'creado', round 1, and is loaded with nobody in it |
| Brackets.BracketsManager.AgregarParticipante | js/brackets.js:234-286 | needs a bracket and a user; an existing (bracket, user) row, inactive too, is the duplicate message; otherwise one active row is stored and pushed onto the local list |
| Brackets.BracketsManager.RemoverParticipante | js/brackets.js:288-326 | only for a listed user with confirmation: that user's rows become inactive and leave the local list |
| Brackets.BracketsManager.ConfirmarParticipantes | js/brackets.js:407-444 | refused without a bracket or with fewer than two participants; otherwise the bracket becomes 'en_progreso' in the table and locally |
| Brackets.BracketsManager.GenerarRonda1 | js/brackets.js:446-497 | same refusals; otherwise the round-1 rows of the seed order are inserted and reloaded |
| Brackets.BracketsManager.ActualizarEstadisticasParticipante | js/brackets.js:822-861 | the participant table and the ledger become exactly as `AfterStats` gives them |
| Brackets.BracketsManager.RegistrarPuntosRankingExtra | js/brackets.js:863-897 | a signed entry under the bracket name; none for 0 points or without a bracket |
| Brackets.BracketsManager.FinalizarPartido | js/brackets.js:761-820 | an unknown match changes nothing; otherwise the stored row is finished and the statistics of winner and loser are recorded |
| Brackets.BracketsManager.GuardarPuntosPartido | js/brackets.js:698-759 | a bye is finished for its player; two winners are refused before any write; otherwise the scores are stored, a decided match is finished, and the matches are reloaded |
| Brackets.BracketsManager.TodasLasRondasCompletadas | js/brackets.js:899-909 | true exactly when the shown round is complete |
| Brackets.BracketsManager.GenerarSiguienteRonda | js/brackets.js:911-990 | refused while the round is open or with fewer than two winners; otherwise the next-round rows are inserted and the round counter advances by one |
| Brackets.BracketsManager.FinalizarBracket | js/brackets.js:992-1030 | refused while more than one listed participant is active; once confirmed, the bracket is 'finalizado' |
| Rankings.JoinEntry | js/rankings.js:50-61 | a ledger entry joins exactly when its user exists, and keeps its points |
| Rankings.JoinAll | js/rankings.js:50-63 | the join succeeds exactly when every entry joins, entry by entry |
| Rankings.GroupedSpec | js/rankings.js:66-83 | one standing per user name, exactly the names in the rows, each holding that name's total |
| Rankings.GroupByUser | js/rankings.js:66-83 | the `forEach` over the rows computes the grouping |
| Rankings.ExtraRankingSpec | js/rankings.js:85-87 | only positive totals, each the user's true total, in descending order, one line per name, and no positive standing left out |
| Rankings.MainRanking | js/rankings.js:18 | a permutation of the players in descending main points |
| Rankings.PlaceClass | js/rankings.js:117-119 | a podium class exactly for positions 1 to 3 |
| Rankings.MedalMain | js/rankings.js:110-113 | a medal (🥇, 🥈, 🥉) exactly for positions 1 to 3, one character the export strips |
| Rankings.MedalExtra | js/rankings.js:149-152 | the same for the extra ranking's 🎯, 🎪, 🎮 |
| Rankings.RankingManager.constructor | js/rankings.js:2-4 | the default event |
| Rankings.RankingManager.LoadRankingExtra | js/rankings.js:34-99 | the typed event or the current one is kept; the ranking shown is the extra ranking of that event's joined entries |
| Rankings.RankingManager.LimpiarRankingExtra | js/rankings.js:181-244 | runs exactly at level 1 with confirmation; removes exactly the event's entries and shows it empty |
| Rankings.ClearedEventIsEmpty | js/rankings.js:210-213 | after clearing, the event has no entries and its ranking is empty |
| Rankings.StripMedalUnits | js/rankings.js:266 | the regular expression as written leaves no surrogate half of the six emojis and never lengthens the string |
| Rankings.StripMedals | js/rankings.js:266 | the intended cleaning leaves none of the six emojis and never lengthens the cell |
| Rankings.StripMedalsSpec | js/rankings.js:266 | no medal is left, the result is well-formed UTF-16, and cleaning twice is cleaning once |
| Rankings.TrophyLosesHalf | js/rankings.js:266 | the regular expression as written turns the trophy into a lone low surrogate |
| Rankings.CleaningsAgree | js/rankings.js:266 | on a text whose characters above U+FFFF are all among the six emojis, the regular expression on code units removes exactly what the character-level cleaning removes |
| Rankings.TrimStart | js/rankings.js:266 | a suffix of the cell; every removed character is white space, and the result does not start with it |
| Rankings.TrimEnd | js/rankings.js:266 | a prefix; every removed character is white space, and the result does not end with it |
| Rankings.JsTrim | js/rankings.js:266 | the result is empty or does not begin or end with white space |
| Rankings.TrimNoSpace | js/rankings.js:266 | trimming a cell without outer white space keeps it |
| Rankings.TrimStartUnits | js/rankings.js:266 | `trim` on code units: a suffix, every removed unit is white space, and the result does not start with it |
| Rankings.TrimEndUnits | js/rankings.js:266 | a prefix, every removed unit is white space, and the result does not end with it |
| Rankings.TrimAgree | js/rankings.js:266 | trimming the code units of a text is trimming the text, since no white space is above U+FFFF or a surrogate half |
| Rankings.ExportRow | js/rankings.js:261-268 | the inner loop yields each cell of the row cleaned on its code units, trimmed and quoted |
| Rankings.ExportCsv | js/rankings.js:257-273 | the two loops produce exactly the code units of the quoted, comma- and newline-joined table, as the engine computes them |
| Rankings.QuoteAgree | js/rankings.js:266-267 | a cell whose characters above U+FFFF are all among the six emojis exports as the code units of its intended quoted cell |
| Rankings.ExportAgrees | js/rankings.js:257-273 | on such a table, the export as written is exactly the JavaScript string of the intended export |
| Rankings.TrophyCellExport | js/rankings.js:257-273 | as written, a one-cell table holding the trophy exports a quoted lone low surrogate, which is not well-formed UTF-16 |
| Rankings.SplitJoin | js/rankings.js:270 | splitting a join at its separator gives the pieces back |
| Rankings.LineRoundTrip | js/rankings.js:266-270 | parsing an intended exported row gives back the cleaned cells |
| Rankings.CsvRoundTrip | js/rankings.js:257-273 | parsing the intended exported file gives back the cleaned table |
| Rankings.PositionCellExport | js/rankings.js:122 | a position cell exports as just its number |
| Admins.NivelTexto | js/admin.js:153 | "Super Admin" exactly from level 2, "Admin Normal" otherwise |
| Admins.SetActivoSpec | js/admin.js:87-90 | only the row with that id changes, its flag is set, and both unique keys are kept |
| Admins.ToggleTwice | js/admin.js:69-108 | toggling twice gives the table back |
| Admins.InsertKeepsKeys | js/admin.js:39-49 | a new row with a fresh id and a free username keeps both keys unique |
| Admins.DeleteKeepsKeys | js/admin.js:130-133 | deleting by id removes exactly that id and keeps the keys unique |
| Admins.AdminManager.LoadAdministradores | js/admin.js:7-28 | the list is reloaded only at level 2 |
| Admins.AdminManager.CrearAdministrador | js/admin.js:30-67 | created exactly at level 1 with a digest and a free username; duplicate and digest failures get their messages; the row is active and holds the hex hash |
| Admins.AdminManager.ToggleEstadoAdmin | js/admin.js:69-108 | level 2, a listed row that is not one's own; the row's flag becomes the negation of the listed one |
| Admins.AdminManager.EliminarAdministrador | js/admin.js:110-146 | level 1, a listed row that is not one's own, confirmed; exactly that id is deleted |
| Usuarios.AddPuntosSpec | js/usuarios.js:87-126 | only the player with that id changes, by exactly the amount |
| Usuarios.AddPuntosCompose | js/usuarios.js:87-126 | two additions are one addition of the sum, and adding 0 changes nothing |
| Usuarios.UsuarioManager.LoadUsuarios | js/usuarios.js:7-26 | the list is the table |
| Usuarios.UsuarioManager.AgregarUsuario | js/usuarios.js:50-85 | added exactly at level 1 with a free name and an existing or no team; the duplicate name gets its message |
| Usuarios.UsuarioManager.SumarPuntosMain | js/usuarios.js:87-126 | done exactly at level 1 for a single stored player, whose main points move by the amount |
| Usuarios.UsuarioManager.SumarPuntosExtra | js/usuarios.js:128-156 | one ledger entry is appended, moving exactly that user's event total |
| Usuarios.UsuarioManager.GuardarCambiosUsuario | js/usuarios.js:205-229 | a level-1 save with a valid team and a free name replaces exactly that row |
| Usuarios.UsuarioManager.EliminarUsuario | js/usuarios.js:231-269 | the player's ledger entries go first, then the player; nothing of that id is left |
| Usuarios.DeleteLeavesNothing | js/usuarios.js:245-256 | the ledger and table keep exactly the entries and rows of other ids |
| Usuarios.ObtenerPosicion | js/usuarios.js:196-203 | "-" exactly for an unknown player, otherwise "#" followed by a number |
| Usuarios.PositionIsRank | js/usuarios.js:196-203 | the position is one plus the number of players ranked before, ties in load order |
| Usuarios.TopScorerFirst | js/usuarios.js:196-203 | a strict top scorer is "#1" |
| Equipos.ToUpper | js/equipos.js:59 | no lower-case letter is left, the length is kept, and other characters stay |
| Equipos.ToUpperIdempotent | js/equipos.js:59 | upper-casing twice is upper-casing once |
| Equipos.NormalizeTagInputSpec | js/equipos.js:211 | the typed tag becomes upper case and is cut to 5 characters |
| Equipos.DuplicateMessage | js/equipos.js:73-78 | the "name taken" message exactly when the store's message mentions `nombre`, the "tag taken" one otherwise |
| Equipos.MiembrosSpec | js/equipos.js:150 | the member count is the number of players of that team, 0 exactly when none |
| Equipos.PuntosTotalesSnoc | js/equipos.js:151 | the team total grows by a new player's points exactly when the player belongs to the team |
| Equipos.TotalAfterSum | js/equipos.js:151 | adding points to one player moves the team total by that amount exactly when the player belongs to the team |
| Equipos.InsertKeepsKeys | js/equipos.js:54-62 | a new team with a fresh id and a free name and tag keeps the keys unique |
| Equipos.DeleteKeepsKeys | js/equipos.js:119-122 | deleting by id removes exactly that team and keeps the keys unique |
| Equipos.EquipoManager.LoadEquipos | js/equipos.js:7-24 | the list is the table |
| Equipos.EquipoManager.CrearEquipo | js/equipos.js:47-84 | created exactly at level 1 when neither the name nor the upper-cased tag is taken |
| Equipos.EquipoManager.SubmitCrearEquipo | js/equipos.js:188-202 | a tag over 5 characters is refused before anything else |
| Equipos.EquipoManager.EliminarEquipo | js/equipos.js:86-135 | deleted only at level 1, for a listed team with no members, confirmed |
| WorkspaceAuth.IsAdmin | workspace/src/utils/auth.ts:41-43 | true exactly for a user of level 1 or more |
| WorkspaceAuth.IsSuperAdmin | workspace/src/utils/auth.ts:45-47 | true exactly for a user of level 2 or more |
| WorkspaceAuth.SuperAdminIsAdmin | workspace/src/utils/auth.ts:41-47 | every super administrator is an administrator; level 1 is an administrator but not a super one |
| WorkspaceAuth.AuthState.GetCurrentUser | workspace/src/utils/auth.ts:33-35 | the module's current user |
| WorkspaceAuth.AuthState.SetCurrentUser | workspace/src/utils/auth.ts:37-39 | the next read returns the user set |
| WorkspaceAuth.AuthState.Logout | workspace/src/utils/auth.ts:28-31 | no current user afterwards, and so no admin rights |
| WorkspaceAuth.AuthState.Login | workspace/src/utils/auth.ts:17-26 | the login stub always resolves to no user |
| Sorting.SortBy | js/rankings.js:87 | a sorted permutation of the input |
| Sorting.InsertSorted | js/rankings.js:87 | inserting into a sorted list keeps it sorted |
| Sorting.SortRank | js/usuarios.js:196-203 | after a stable sort, input element i sits at its rank: the count of smaller keys, plus equal keys before it |
| Sorting.FindIndexAfterSort | js/usuarios.js:196-203 | the only element meeting a test is found at its rank after sorting |

## Left out

- Store errors are not modelled. A failed network or store call, other than the ones the source maps to a specific message, is not a path of the model, and neither are `try`/`catch` blocks whose only effect is a toast.
- Interleavings of asynchronous handlers are not modelled. Each handler runs to completion as one step, including the ones that write several tables one after another.
- Load orderings are left out. The rows a reload returns in `order(...)` order (by name, by level, by seed, by main points, by date) are returned in table order; only the orderings the code computes itself are modelled.
- DOM rendering, notifications, tab switching and `confirm()` dialogs are left out. A dialog's answer is a parameter.
- Unseeded players keep load order in round 1. In `generarPartidosRonda1` the random shuffle at js/brackets.js:504-511 works on a copy it never uses (and uses `Math.random`).
- BracketDraw.BracketSize: does not model `Math.log2`/`Math.pow` floating point. It uses the integer definition (the least power of two at least max(2, n)), which agrees with the floating-point one for the participant counts a page can hold.
- Auth.AuthManager.Login: the MD5 digest from Web Crypto is the `digest` parameter. Web Crypto does not offer MD5, so the available path is `None`, which the model treats as the login error.
- Equipos.ToUpper: covers ASCII letters only. `toUpperCase` on other scripts, and lengths counted in UTF-16 units by `slice(0, 5)`, are not modelled.
- `parseInt` parsing of form fields is not modelled. Numbers arrive already parsed, and an empty field is `None`.
- IDs read from the DOM as strings and compared with `===` against numeric ids are not modelled; ids are compared as numbers.
- The history log (`js/historial.js`) and the calls into it are not part of this model.
- `loadRankingMain` is modelled as `Rankings.MainRanking`. The store's `order('puntos_main', { ascending: false })` is stated as a sorted permutation; its tie order is not modelled.
- Brackets.BracketsManager.RegistrarPuntosRankingExtra: the lookup of the user at js/brackets.js:873-879 is not modelled. The players table is not held by the bracket manager, and a participant's user exists by the store's foreign key.
- Brackets.BracketsManager.GuardarPuntosPartido: the score inputs arrive as integers. The `parseInt(...) || 0` at js/brackets.js:703-704 is taken as already applied, and a missing DOM element is not modelled.
- Brackets.BracketsManager.AgregarParticipante, Brackets.BracketsManager.RemoverParticipante, Brackets.BracketsManager.ConfirmarParticipantes: the bracket id is taken from `currentBracket`. The code reads it from the `bracketSeleccionado` select (js/brackets.js:235, 289, 408), which the page sets when it selects a bracket; a select changed without reloading the bracket is not modelled.
- Usuarios.UsuarioManager.SumarPuntosExtra: the store's foreign key on `usuario_id` is not checked, so the insert always succeeds in the model.
- Rankings.ExportCsv: the `<table>` lookup and the download (`Blob`, the hidden link, `msSaveBlob`, js/rankings.js:247-255 and 274-286) are left out. The cells' `innerText` strings are the parameter, as code units.
- The console logging of `workspace/src/utils/auth.ts` is left out.
- `renderRankingMain` and `renderRankingExtra` are modelled only as their badges (`PlaceClass`, `MedalMain`, `MedalExtra`); the HTML is left out.

### Checks and steps the code leaves out

The code omits each of these guards or steps, which a reader of the panel might expect, and the model omits them too.

- `guardarPuntosPartido` does not refuse a match that is already finished. Saving scores again re-finishes it and records the statistics a second time.
- `confirmarParticipantes` and `generarRonda1` do not check the bracket's `estado`.
- `generarSiguienteRonda` does not check that the bracket is 'en_progreso' (js/brackets.js:911-933). It needs only a selected bracket whose current round is complete and has at least two winners.
- `crearAdministrador` and `eliminarAdministrador` need only level 1. Only listing and toggling need level 2.
- The unseeded players are not shuffled; see "Left out" above.

## Findings

| source | as written | input that shows it | evidently intended | confidence | as-written member | corrected member |
|---|---|---|---|---|---|---|
| js/rankings.js:266 | the class `/[🥇🥈🥉🎯🎪🎮]/g` has no `u` flag, so it is a class of single UTF-16 code units, the eight surrogate halves of the six emojis | a cell holding 🏆 (U+1F3C6, units D83C DFC6): its high unit D83C is also the high unit of 🎯, so it is removed and a lone DFC6 is exported | remove whole medal characters and keep the text well-formed | not executed | Rankings.TrophyCellExport | Rankings.StripMedalsSpec |
| js/brackets.js:771-789 | `puntosJugador1 \|\| partido.puntos_usuario1` falls back to the score held in the page's copy of the match, which still has the scores from before this save, whenever the entered score is 0 | a match stored at 1-2, to 3 points, saved at 3-0: player 1 wins, the loser's points fall back to the stale 2, the row is stored as 3-2 and the loser is charged 2 in the extra ranking instead of 0 | use the scores just entered | not executed | BracketDraw.StaleLoserPoints | BracketDraw.ResolveEnteredKeepsScores |

Both rows keep the code as written in the operations: `Rankings.ExportCsv` exports on code units with the class as written, and `Brackets.BracketsManager.GuardarPuntosPartido` resolves a finished match with `BracketDraw.Resolve`. The corrected definitions (`Rankings.StripMedals` with `Rankings.CsvText`, and `BracketDraw.ResolveEntered`) sit beside them with their properties proved, and `Rankings.ExportAgrees` and `BracketDraw.ResolveEnteredKeepsScores` state where the two agree.
