# Football draws backend — a Dafny model

This project models the core of the `sorteio-futebol` backend, an ASP.NET Core minimal API with
Entity Framework Core. Organizers register, log in with a password or with Google, and keep a
roster of players (*jogadores*). Players can also register themselves with an organizer's join
code. An organizer creates draws (*sorteios*), stores the teams (*times*) of a draw with their
players, finalizes the draw, and records match results (*partidas*).

The model has these parts:

- **The database** (`Infrastructure/FutebolContext.cs` with its mappings and migration).
  - Class `Store.FutebolStore` holds one `seq` per table and the counter that hands out each
    table's next key.
  - Draws are objects of class `Domain.Sorteio`, so finalizing one changes it in place.
  - Predicate `Constraints.Consistent` states what the database enforces:
    - unique e-mails;
    - the unique (TimeId, JogadorId) index;
    - the home-team-differs-from-away-team check;
    - the foreign keys.
  - It also states what the handlers keep true on top of that: unique keys, unique join codes,
    unique pending reset tokens, and draw statuses that are either "Aberto" or "Finalizado".
- **The handlers that write.** Each is a method of `FutebolStore` that preserves `Valid()`. Each
  states its reply, the exact condition for every error reply, and its whole new state.
- **The handlers that only read.** These are functions over the tables:
  - `Auth.Login`, `Auth.Refresh`, `Auth.ProfileOf`;
  - `Jogadores.ListJogadores`;
  - `Sorteios.ListTimes`, `Sorteios.ListRoster`, `Sorteios.ListDraws`;
  - `Partidas.ListResults`.

  Lemmas connect each write to the reads that follow it:
  - a listing after an insert;
  - login after a password change;
  - a reset token's single use;
  - the positions round trip through the comma-joined column;
  - a roster after teams are added.
- **Effects outside the program are parameters:**
  - the clock is a number of seconds;
  - SHA-256 is an uninterpreted function `hash`, which is not assumed injective;
  - GUIDs are a supplied stream of 32-hex-digit strings;
  - Google's token verification is an optional payload;
  - the JWT is its claims;
  - the authenticated caller is an optional user id.

Replies use `Replies.Reply`. `Ok`, `Created`, `NoContent`, `BadRequest(message)`, `Unauthorized`
and `NotFound` are the HTTP results the handlers return. `StoreRejected` is a write that the
database refuses: a unique index, a check constraint or a foreign key. `Fault` is an exception
inside the handler, such as `FirstAsync` on a missing row.

## Model

| member | source | states |
|---|---|---|
| DotNetText.TrimStartSpec | Endpoints/Jogadores.cs:85 | `TrimStart` drops exactly the leading white-space characters and keeps a suffix that starts with a non-white character |
| DotNetText.TrimEndSpec | Endpoints/Jogadores.cs:85 | `TrimEnd` drops exactly the trailing white-space characters |
| DotNetText.TrimFixpoint | Endpoints/Jogadores.cs:85 | a string is its own trim if and only if it neither starts nor ends with white space |
| DotNetText.TrimIsInfix | Endpoints/Jogadores.cs:85 | the trim is a contiguous block of the input |
| DotNetText.TrimKeepsOut | Endpoints/Jogadores.cs:85 | trimming introduces no character that the input lacks |
| DotNetText.TrimIdempotent | Endpoints/Jogadores.cs:85 | the trim is trimmed, so trimming twice equals trimming once |
| Positions.Split | Endpoints/Sorteio.cs:102 | `Split(',')` yields at least one part and no part contains a comma |
| Positions.Clean | Endpoints/Jogadores.cs:85 | `TrimEntries` with `RemoveEmptyEntries` leaves only non-empty, trimmed entries, no more of them than there were parts |
| Positions.CleanIsTrimThenFilter | Endpoints/Jogadores.cs:84-86 | for all parts, the cleaned entries are exactly the parts' trims, in order, without those that trim to "" |
| Positions.Column | Endpoints/Jogadores.cs:34 | the stored column is null exactly when the request has no position list |
| Positions.CleanSeparatorFree | Endpoints/Jogadores.cs:85 | cleaning comma-free parts yields comma-free entries |
| Positions.SplitCommaFree | Endpoints/Sorteio.cs:102 | a comma-free string splits into itself alone |
| Positions.SplitAtSeparator | Endpoints/Sorteio.cs:102 | splitting at the first comma gives the part before it, then the split of the rest |
| Positions.SplitJoin | Endpoints/Sorteio.cs:102 | the roster's raw split of a join of one or more comma-free tags gives the tags back |
| Positions.JoinSplit | Endpoints/Sorteio.cs:102 | joining the raw split of any string gives the string back |
| Positions.CleanWellFormed | Endpoints/Jogadores.cs:85 | cleaning leaves a list of well-formed tags unchanged |
| Positions.SplitEntriesJoin | Endpoints/Jogadores.cs:84-86 | the player list reads back exactly the well-formed tags that were joined into the column |
| Positions.SplitEntriesWellFormed | Endpoints/Jogadores.cs:84-86 | every position the player list shows is non-empty, comma-free and trimmed |
| Positions.RawReadingExample | Endpoints/Sorteio.cs:102 | the roster reads "a, ,b" as ["a", " ", "b"] |
| Positions.CleanReadingExample | Endpoints/Jogadores.cs:85 | the player list reads "a, ,b" as ["a", "b"] |
| Seqs.Filter | Endpoints/Jogadores.cs:66-68 | `Where` keeps exactly the elements satisfying the predicate, and no more of them than the input has |
| Seqs.FilterCount | Endpoints/Jogadores.cs:66-68 | `Where` keeps each satisfying element as often as the input has it and drops the others |
| Seqs.FirstIndex | Endpoints/Jogadores.cs:115 | `FirstOrDefault` finds the first position satisfying the predicate, or none when no position does |
| Domain.Sorteio.constructor | Domain/Sorteio.cs:3-10 | a new draw has status "Aberto" and zero teams |
| Domain.Sorteio.Finalizar | Domain/Sorteio.cs:14 | the draw's status becomes "Finalizado" and no other field changes |
| Domain.Finalized | Domain/Sorteio.cs:14 | finalizing sets the status to "Finalizado" and keeps every other field |
| Domain.FinalizedIdempotent | Domain/Sorteio.cs:14 | finalizing twice equals finalizing once |
| Constraints.EmptyConsistent | Infrastructure/FutebolContext.cs:18-36 | the empty database meets every constraint |
| Constraints.DuplicatePairRejected | Infrastructure/FutebolContext.cs:24-26 | two membership rows with the same team and player violate the unique index |
| Constraints.StoredMatchHasTwoTeams | Infrastructure/FutebolContext.cs:28-33 | every stored match has different home and away teams |
| Constraints.OneUserPerEmail | Infrastructure/Mappings/UserMap.cs:23-24 | with the unique e-mail index, two users with the same e-mail are the same row |
| Constraints.AddUserKeeps | Endpoints/Auth.cs:24-33 | inserting a user with a fresh id, an unused e-mail and no pending reset keeps the database consistent |
| Constraints.AddOrganizerKeeps | Endpoints/Auth.cs:41-51 | inserting an organizer with a fresh id, an unused code and a stored owner keeps it consistent |
| Constraints.AddJogadorKeeps | Endpoints/Jogadores.cs:30-41 | inserting a player with a fresh id under a stored organizer keeps it consistent |
| Constraints.UpdateUserKeeps | Endpoints/Auth.cs:216-220 | overwriting a user keeps it consistent if the id and e-mail are kept and the reset token is cleared, kept, or held by no user |
| Constraints.UpdateOrganizerKeeps | Endpoints/Auth.cs:267-273 | overwriting an organizer keeps it consistent if the id and owner are kept and no other organizer holds the code |
| Constraints.UpdateJogadorKeeps | Endpoints/Jogadores.cs:119-125 | overwriting a player keeps it consistent if the id and organizer are kept |
| Constraints.AddDrawKeeps | Endpoints/Sorteio.cs:20-27 | inserting a draw with a fresh id and a known status keeps it consistent |
| Constraints.UpdateDrawKeeps | Endpoints/Sorteio.cs:113-115 | overwriting a draw keeps it consistent if the id is kept and the status is known |
| Constraints.AddTimesKeeps | Endpoints/Sorteio.cs:41-48 | inserting teams with fresh distinct ids that point at stored draws keeps it consistent |
| Constraints.AddMembersKeeps | Endpoints/Sorteio.cs:50-58 | inserting membership rows keeps it consistent if their ids are fresh, the unique index holds, and they point at stored teams and players |
| Constraints.AddPartidaKeeps | Endpoints/Partidas.cs:18-28 | inserting a result with a fresh id and different teams keeps it consistent |
| Jogadores.Scope | Endpoints/Jogadores.cs:22-28 | the caller's scope is the id of an active organizer row the caller owns; there is none if and only if the caller is unknown or owns no active row |
| Jogadores.NewJogador | Endpoints/Jogadores.cs:30-38 | a created player is active, belongs to the given organizer, and stores the request's fields with its positions joined by "," |
| Jogadores.Updated | Endpoints/Jogadores.cs:119-123 | an update replaces the name, notes and flags, and replaces the positions only when a list is sent; id, organizer, status and creation time stay |
| Jogadores.WithStatus | Endpoints/Jogadores.cs:152 | the status update changes only `ativo` |
| Jogadores.FindOwned | Endpoints/Jogadores.cs:115-117 | finds a row with that id in the caller's organizer; there is none if and only if no row matches both |
| Jogadores.ListItem | Endpoints/Jogadores.cs:80-91 | a listed player carries the row's fields and notes as "" when null; its positions are the column's comma-separated parts, each trimmed, in order, without those that trim to "" (none when the column is null), and all are well-formed |
| Jogadores.ListJogadores | Endpoints/Jogadores.cs:52-95 | unauthorized if and only if there is no scope; otherwise every listed item is a matching player of the scope |
| Jogadores.ListedIff | Endpoints/Jogadores.cs:66-78 | with unique ids, a player is listed if and only if it passes the organizer, status and name filters |
| Jogadores.ListedPositions | Endpoints/Jogadores.cs:84-86 | a player created with well-formed tags lists exactly those tags; one created without a list lists none |
| Jogadores.ListedPositionsTrimmed | Endpoints/Jogadores.cs:84-86 | a player created with any comma-free tags, trimmed or not, lists each tag trimmed, in order, without those that trim to "" |
| Jogadores.UpdatedPositions | Endpoints/Jogadores.cs:120 | after an update that sends well-formed tags, the player lists exactly those tags |
| Jogadores.UpdateKeepsPositions | Endpoints/Jogadores.cs:120 | an update without a list leaves the listed positions as they were |
| Sorteios.TeamRows | Endpoints/Sorteio.cs:39-47 | one team row per submitted team, in order, with consecutive ids, the draw's id and the submitted name |
| Sorteios.MemberRows | Endpoints/Sorteio.cs:50-58 | one membership row per listed player id, in order, with consecutive ids and the team's id |
| Sorteios.RosterRows | Endpoints/Sorteio.cs:39-61 | all teams' membership rows, one per listed id over all teams |
| Sorteios.PlayersOfTeamAppend | Endpoints/Sorteio.cs:93-94 | a team's players in two concatenated tables are its players in the first, then in the second |
| Sorteios.PlayersOfOtherTeam | Endpoints/Sorteio.cs:93-94 | rows of other teams contribute no players |
| Sorteios.PlayersOfOneTeam | Endpoints/Sorteio.cs:50-58 | a team's own membership rows hold exactly its listed ids, in order |
| Sorteios.PlayersOfTeamFilter | Endpoints/Sorteio.cs:93-94 | the player ids of the rows filtered by team are that team's players |
| Sorteios.RosterRowsTeams | Endpoints/Sorteio.cs:54 | every new membership row names one of the new teams |
| Sorteios.RosterRowsIds | Endpoints/Sorteio.cs:52-57 | the new membership rows take consecutive ids |
| Sorteios.RosterOfNewTeam | Endpoints/Sorteio.cs:50-58 | after adding teams, the k-th new team has exactly the submitted ids, in order |
| Sorteios.RosterOfTeam | Endpoints/Sorteio.cs:39-61 | within a submission's rows, the k-th team has exactly its submitted ids |
| Sorteios.RosterPairsDistinct | Infrastructure/FutebolContext.cs:24-26 | a submission's (team, player) pairs are distinct if and only if no team lists a player twice |
| Sorteios.RosterUniqueIff | Infrastructure/FutebolContext.cs:24-26 | the unique index admits a submission's rows if and only if no team lists a player twice |
| Sorteios.RosterPlayersFlat | Endpoints/Sorteio.cs:50-58 | the player column of a submission's rows is the concatenation of the submitted lists |
| Sorteios.RosterKnownIff | Migrations/20251226092950_InitialCreate.cs:147-151 | the foreign key to players admits a submission's rows if and only if every listed id is a stored player |
| Sorteios.AcceptedIff | Infrastructure/FutebolContext.cs:24-26 | the database accepts a submission's rows if and only if no team repeats a player and every id is a stored player |
| Sorteios.AddTeamsKeeps | Endpoints/Sorteio.cs:39-65 | storing an accepted submission and resizing the draw keeps the database consistent, with the counters past the new keys |
| Sorteios.ListTimes | Endpoints/Sorteio.cs:70-83 | not found if and only if no draw has the id; otherwise the listing holds exactly the draw's stored teams, no more entries than there are teams |
| Sorteios.ListTimesAfterAdd | Endpoints/Sorteio.cs:77-80 | after adding teams, the draw's listing is the old listing followed by the new teams |
| Sorteios.RosterLine | Endpoints/Sorteio.cs:98-105 | a roster line carries the player's id, name and flags; its positions are the raw `Split(',')` of the stored column, with no trimming and no empty entries dropped, so they re-join to the column; there are none when the column is null |
| Sorteios.JoinedIds | Endpoints/Sorteio.cs:93-96 | with the foreign key in force, the join with players loses no membership row |
| Sorteios.ListRoster | Endpoints/Sorteio.cs:85-106 | not found if and only if no draw has the given draw id |
| Sorteios.JoinedLines | Endpoints/Sorteio.cs:93-105 | every line of the join is the roster line of a stored player |
| Sorteios.RosterLinesOfPlayers | Endpoints/Sorteio.cs:85-106 | with the player foreign key in force, the roster has one line per membership row of the team; line k is the roster line (name, flags, raw-split positions) of the stored player whose id is the team's k-th player id |
| Sorteios.RosterListsTeam | Endpoints/Sorteio.cs:93-105 | the roster lists exactly the team's players, in table order |
| Sorteios.RosterIgnoresDraw | Endpoints/Sorteio.cs:90-94 | the roster does not depend on which existing draw id is given |
| Sorteios.RosterAfterAdd | Endpoints/Sorteio.cs:85-106 | after adding teams, the roster of the k-th new team lists exactly its submitted ids |
| Sorteios.ListDraws | Endpoints/Sorteio.cs:120-131 | unauthorized if and only if the caller is unknown; otherwise a draw is listed if and only if the caller owns it |
| Sorteios.ListDrawsAfterCreate | Endpoints/Sorteio.cs:126-128 | a created draw is appended to its owner's listing |
| Sorteios.DrawIndex | Endpoints/Sorteio.cs:36 | finds the draw with the id; there is none if and only if no draw has it |
| Sorteios.Resized | Endpoints/Sorteio.cs:63 | only the team count changes |
| Sorteios.NoReopen | Domain/Sorteio.cs:9-14 | finalizing, resizing and creating draws never move a finalized draw back to "Aberto" |
| Partidas.NewPartida | Endpoints/Partidas.cs:18-26 | a recorded result has status "Finalizado" and the submitted draw, teams and goals |
| Partidas.ListResults | Endpoints/Partidas.cs:32-48 | the listing holds exactly the draw's stored results, no more entries than there are results |
| Partidas.ListAfterRecord | Endpoints/Partidas.cs:36-45 | recording a result appends it to its draw's listing and leaves other draws' listings unchanged |
| JoinCodes.CodeOf | Endpoints/Auth.cs:38 | a code has eight lower-case hex digits, the GUID's first eight |
| JoinCodes.CodeIsLowerCase | Endpoints/Auth.cs:38 | generated codes contain no upper-case letter |
| JoinCodes.FirstUnusedCode | Endpoints/Auth.cs:35-39 | the do/while loop returns the first code in the stream that no organizer holds |
| Auth.FindByEmail | Endpoints/Auth.cs:93 | finds the first user with the e-mail; there is none if and only if no user has it |
| Auth.FindById | Endpoints/Auth.cs:182 | finds the user with the id; there is none if and only if no user has it |
| Auth.FindOrganizerOf | Endpoints/Auth.cs:186 | finds the user's first organizer row, every earlier row belonging to someone else; there is none if and only if the user owns none |
| Auth.Login | Endpoints/Auth.cs:91-104 | succeeds if and only if the first user with the e-mail has the password's hash; the token's subject is that user's id; both failures give the same message; the token lasts 7 days with remember and 1 day without |
| Auth.LoginIff | Endpoints/Auth.cs:93-98 | with unique e-mails, login succeeds if and only if some user has that e-mail and hash |
| Auth.Refresh | Endpoints/Auth.cs:152-174 | succeeds if and only if the token is readable, unexpired and has a subject; the result is a new 1-day token for the same subject |
| Auth.RefreshKeepsSubject | Endpoints/Auth.cs:160-168 | refreshing an unexpired token keeps its subject |
| Auth.ProfileOf | Endpoints/Auth.cs:176-191 | unauthorized if and only if there is no caller, not found if and only if the caller is not a stored user; otherwise the user's name, e-mail and account kind, and the code of the caller's first organizer row, or "" when the caller owns none |
| Auth.WithResetToken | Endpoints/Auth.cs:286-288 | a recovery sets the pending token and an expiry 24 hours ahead and changes nothing else |
| Auth.Redeemed | Endpoints/Auth.cs:317-319 | a reset sets the new hash, clears the token and its expiry, and changes nothing else |
| Auth.ResetTargetAsWritten | Endpoints/Auth.cs:313 | the lookup as written compares nullable tokens; it finds a user if and only if some user's token equals the request's |
| Auth.NullTokenMatchesIdleUser | Endpoints/Auth.cs:313-314 | as written, a request without a token finds a user with no reset pending |
| Auth.ResetTarget | Endpoints/Auth.cs:313 | the corrected lookup finds a user only for a present token that the user holds |
| Auth.ResetNeedsPendingToken | Endpoints/Auth.cs:313 | with the corrected lookup, only a user with a pending reset is found |
| Auth.Redefinir | Endpoints/Auth.cs:311-315 | with the corrected lookup (see Findings), succeeds if and only if a present token finds a user whose expiry has not passed; otherwise "Token inválido ou expirado." |
| Auth.FreshTokenAccepted | Endpoints/Auth.cs:285-288 | a token issued to a user is accepted for that user until 24 hours later |
| Auth.SecondUseRejected | Endpoints/Auth.cs:317-319 | a token is rejected once it has been used |
| Auth.LoginAfterPasswordSet | Endpoints/Auth.cs:216 | after the password is set to p, logging in with p gives a token for that user |
| Store.NewUser | Endpoints/Auth.cs:24-31 | a registered user is active, has no pending reset, and has the given hash and account kind |
| Store.PasswordChanged | Endpoints/Auth.cs:216-218 | a password change sets the hash, makes the account a non-Google one, and changes nothing else |
| Store.FindByCode | Endpoints/Auth.cs:61 | finds the first organizer holding exactly the code; there is none if and only if no organizer holds it |
| Store.CodeFindsItsOrganizer | Endpoints/Auth.cs:61-63 | with unique codes, a code designates the organizer holding it |
| Store.CommitKeeps | Endpoints/Sorteio.cs:39-65 | committing an accepted submission keeps the database consistent and the counters past every key |
| Store.FutebolStore.constructor | Infrastructure/FutebolContext.cs:6-16 | the database starts empty and valid |
| Store.FutebolStore.InsertUser | Endpoints/Auth.cs:32-33 | appends the user and keeps the database valid |
| Store.FutebolStore.InsertOrganizer | Endpoints/Auth.cs:50-51 | appends the organizer and keeps the database valid |
| Store.FutebolStore.AddAccount | Endpoints/Auth.cs:24-51 | appends a user and an active organizer owned by it |
| Store.FutebolStore.ReplaceUser | Endpoints/Auth.cs:219-220 | overwrites one user row and keeps the database valid |
| Store.FutebolStore.ReplaceOrganizer | Endpoints/Auth.cs:272-273 | overwrites one organizer row and keeps the database valid |
| Store.FutebolStore.RegisterOrganizador | Endpoints/Auth.cs:19-54 | rejects a taken e-mail with nothing stored; otherwise stores the user with the password's hash and an active organizer with the stream's first free 8-digit code |
| Store.FutebolStore.RegisterJogador | Endpoints/Auth.cs:56-89 | rejects a blank code, then a code no organizer holds, with nothing stored; otherwise stores an active player under the organizer holding the code |
| Store.FutebolStore.InsertJogador | Endpoints/Jogadores.cs:40-41 | appends the player and keeps the database valid |
| Store.FutebolStore.GoogleLogin | Endpoints/Auth.cs:106-150 | rejects a missing client id, then an invalid token; creates a Google user and organizer only on the first login with that e-mail; returns a 1-day token for the user with the e-mail |
| Store.FutebolStore.ChangePassword | Endpoints/Auth.cs:193-223 | gives each of the six replies under exactly the source's condition; a Google account needs no current password; on success only that user's hash and account kind change |
| Store.FutebolStore.UpdateName | Endpoints/Auth.cs:225-252 | unauthorized, not found, or "Nome é obrigatório." exactly as the source decides; otherwise renames the user and the user's first organizer row |
| Store.FutebolStore.UpdateCodigo | Endpoints/Auth.cs:254-276 | the empty-code check comes before the organizer lookup; a code that another organizer holds is refused; on success the caller's first organizer takes the code and the code then designates it |
| Store.FutebolStore.RecuperarSenha | Endpoints/Auth.cs:279-308 | always succeeds; an unknown e-mail changes nothing; a known e-mail gets a fresh token that expires in 24 hours; the two replies differ |
| Store.FutebolStore.RedefinirSenha | Endpoints/Auth.cs:311-325 | rejected if and only if `Auth.Redefinir` rejects; on success the token's user gets the new hash and no pending token |
| Store.FutebolStore.CreateJogador | Endpoints/Jogadores.cs:16-50 | unauthorized if and only if there is no scope; otherwise appends an active player of the scope |
| Store.FutebolStore.UpdateJogador | Endpoints/Jogadores.cs:97-128 | unauthorized or not found exactly as the source decides; otherwise overwrites only that player, as `Jogadores.Updated` says |
| Store.FutebolStore.SetJogadorStatus | Endpoints/Jogadores.cs:130-156 | unauthorized or not found exactly as the source decides; otherwise changes only that player's status and replies with the id and the status |
| Store.FutebolStore.ReplaceJogador | Endpoints/Jogadores.cs:125 | overwrites one player row and keeps the database valid |
| Store.FutebolStore.CreateSorteio | Endpoints/Sorteio.cs:15-29 | unauthorized if and only if the caller is unknown; otherwise appends an open draw with no teams, owned by the caller, and replies with its id |
| Store.FutebolStore.AddTeams | Endpoints/Sorteio.cs:31-68 | fails if and only if the draw is missing; refused with nothing stored if and only if a team repeats a player or lists an unknown id; otherwise stores the team and membership rows, sets the team count, and lists the new teams |
| Store.FutebolStore.CommitTeams | Endpoints/Sorteio.cs:63-65 | stores an accepted submission's rows and resizes the draw, keeping the database valid |
| Store.FutebolStore.ResizeDraw | Endpoints/Sorteio.cs:63 | only that draw's team count changes |
| Store.FutebolStore.FinalizarSorteio | Endpoints/Sorteio.cs:108-118 | fails if and only if the draw is missing; otherwise only that draw's status becomes "Finalizado", in place |
| Store.FutebolStore.RegistrarResultado | Endpoints/Partidas.cs:13-30 | refused if and only if the home and away teams are the same; otherwise appends the finalized result |
| Store.BuildRows | Endpoints/Sorteio.cs:39-61 | the nested loops build exactly `TeamRows` and `RosterRows` and the reply listing the new teams |
| Store.BuildMembers | Endpoints/Sorteio.cs:50-58 | the inner loop builds exactly the team's `MemberRows` |

## Left out

- Store.FutebolStore.AddTeams: the source saves each team separately. Each team's membership rows are saved with the next team's save, or with the final one. A refused submission therefore leaves the earlier rows stored and ends in a server error. The model commits or refuses the whole submission.
- Store.FutebolStore.RegisterOrganizador: the user and the organizer are saved in two steps. The model stores both at once, because nothing else happens between the two steps.
- Store.FutebolStore.RegisterOrganizador and Store.FutebolStore.GoogleLogin require the GUID stream to hold a free code. The source loops until it draws one.
- Store.FutebolStore.RedefinirSenha uses the corrected token lookup (see Findings). The as-written lookup is `Auth.ResetTargetAsWritten`.
- Auth.Redefinir uses the corrected token lookup too. A request without a token is rejected, where the source finds a user with no reset pending and overwrites that user's password (see Findings).
- Store.FutebolStore.RecuperarSenha requires the new token to be held by no user. It stands for a fresh GUID.
- Equality lookups on strings are modelled as exact, character-for-character equality. This covers e-mails (Endpoints/Auth.cs:21, 93, 117 and 281), join codes (Endpoints/Auth.cs:61 and 268) and reset tokens (Endpoints/Auth.cs:313). The database's default collation may compare them case-insensitively; that collation is not modelled.
- Jogadores.ListJogadores: SQL `LIKE '%q%'` is modelled as case-sensitive substring search. The database collation is not modelled. Neither are the wildcard characters `%`, `_` and `[` inside `q`.
- Auth.Refresh works at the level of the token's claims. Reading a JWT and Security.GenerateJwt are not modelled. A token that cannot be read is the absent claims.
- The JWT middleware behind `RequireAuthorization` is not modelled. The caller is an optional user id, absent when the subject cannot be read.
- The e-mail service is not modelled. Its failure changes neither the reply nor the stored state of `recuperar-senha`.
- SHA-256 is an uninterpreted function. Google's token check and its client-id configuration are parameters.
- User ids are GUIDs in the source. In the model they are numbers handed out by a counter.
- Database identity columns are numbers handed out by counters. 32-bit integer widths of ids and goals are not modelled.
- Column length limits and required-column checks from the mappings are not modelled.
- Null request strings are modelled only where a handler tests them: codes, passwords, names, positions, notes and the reset token.
- The entity default join code (upper-cased) is not modelled, because both creators overwrite it.
- The nullable goal columns of `Partida` and their `.Value` reads are not modelled. The handler always stores both goals.
- `FirstOrDefault` without an `OrderBy` is taken to follow table order.
- The "Jogador não encontrado após criação." reply cannot happen and is not modelled, because the row was just stored.
- `ListDraws` returns the draw rows without their teams collection, which the source does not load.
- Program.cs, Organizadores.cs, UsersEndpoints.cs and the e-mail templates are not part of this model.

## Findings

| source | as written | input that shows it | evidently intended | confidence | as-written member | corrected member |
|---|---|---|---|---|---|---|
| Endpoints/Auth.cs:313-314 | the user is looked up by comparing the stored reset token with the request's token as nullable values, and a null expiry never counts as expired | a `redefinir-senha` request with no token while some user has no reset pending (null token and null expiry): that user is found and its password is overwritten | only a user who holds the presented, non-null token can reset a password | medium, not executed (the request DTO's declaration is not part of the source shown) | Auth.NullTokenMatchesIdleUser | Auth.ResetNeedsPendingToken |
