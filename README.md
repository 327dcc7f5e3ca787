# Music-library backend: sessions, authentication gate and catalogue tables in Dafny

This project models the core of a NestJS music-catalogue backend (users,
artists, albums, tracks and per-user favourites, behind JWT authentication
with a bounded pool of sessions per user) and proves properties of the model.

- `common.dfy` (`Common`): the response vocabulary. `Reply(error, status, msg)`
  holds the service's `error` flag, the symbolic `RESPONSES` status and the
  `RES_MSG` message. A thrown `CustomError(SMTH_WRNG, BADREQUEST)` is the
  constant `Thrown`.
- `sessions.dfy` (`Sessions`): `SessionService` as the class `SessionStore`,
  holding the session table as an insertion-ordered `seq<Session>`.
  - Each method's postcondition states the new table as a function of the
    old one, or for `createSession`, whose eviction lookup is unordered, as
    a relation between the two.
  - Lemmas about those functions state the eviction rule and the cap bound.
- `auth.dfy` (`Auth`): `JwtAuthService`.
  - Header parsing is JavaScript's `split(' ')[1]`, with `Split`/`Join`
    round trips.
  - `validate` is a method on a mutable `Request`, proved equal to the
    decision function `Authenticate`.
  - `verify` (for `verifyAsync`) and `sign` are opaque functions.
- `guards.dfy` (`Guards`): `JwtAuthGuard` and `JwtRolesGuard` as pure
  decisions `Allowed(identity) | Unauthorized | Forbidden`.
  - The route role lists are declared as constants.
  - Lemmas connect login, logout, session revocation and eviction to the
    gate's decision.
- `user_dto.dfy` (`UserDto`): the user request bodies.
  - JavaScript `trim` (with the `\s` whitespace set) and ASCII case mapping.
  - The password regular expression as a declarative policy, matched by a
    one-pass scanner.
  - The add-user role enum, which has no ADMIN.
- `users.dfy` (`Users`): `UserService` over a `map<Id, User>`. Its
  invariants: at most one ADMIN, the ADMIN is never removed or demoted, and
  emails stay unique once the ADMIN exists.
- `artists.dfy`, `albums.dfy`, `tracks.dfy`, `favorites.dfy`: the catalogue
  services, as guarded insert/update/delete on maps.
  - Each `getAll…` query-filter construction is a pure function, proved
    against the selection it means.

Keys. The database generates a fresh UUID per insert, unique across all
tables. The model's insert methods take that key as an argument `id` and
require it only to be new in its own table. The cross-table distinctness
that favourites rely on is the predicate
`Favorites.FavoritesService.KeysDistinct`, a hypothesis of the favourites
contracts rather than an invariant kept by the other services.

Session eviction. The code calls the evicted row the "oldest", but its
lookup has no ordering, and the table's keys are random UUIDs. The model
lets the lookup return any row of the user: `Sessions.AfterCreate` is a
relation between the table before and after a create, and `createSession`
picks its victim nondeterministically.

Duplicate emails. `loginUser`'s lookup by email also has no ordering. The
model picks any row with that email. It then proves that the choice is
forced whenever emails are unique, which holds once the ADMIN has signed
up.

## Model

| member | source | states |
|---|---|---|
| Sessions.Count | src/api/session/session.service.ts:24 | the user's row count is at most the table size, and is zero iff no row carries the user id |
| Sessions.WithoutSession | src/api/session/session.service.ts:87 | the destroy by `(user_id, token)` leaves exactly the multiset of rows minus every copy of that pair, so the user's count never grows and drops when the pair was live; other users' counts are kept; the table shrinks iff such a row existed |
| Sessions.WithoutUser | src/api/session/session.service.ts:105 | the destroy by `user_id` removes exactly that user's rows and keeps every other user's count |
| Sessions.AfterCreate | src/api/session/session.service.ts:24-38 | the tables a create may leave: below or above the cap one row appended; at cap 0 nothing changes; at a positive cap any one row of the user removed and the new row appended; whenever the create does not fail, the new pair is live |
| Sessions.CreateWithoutEviction | src/api/session/session.service.ts:24-38 | when the count differs from the cap (below it, or already above it), nothing is removed and exactly one row is appended; other users are untouched |
| Sessions.CreateAtCap | src/api/session/session.service.ts:26-38 | at exactly the cap, some row of that user (whichever the lookup returns) is removed and the new row appended, so the user's count stays at the cap; other users are untouched |
| Sessions.CreateKeepsBound | src/api/session/session.service.ts:24-38 | if every user is within the cap before a login, every user is within it after |
| Sessions.EvictedIsNotLive | src/api/session/session.service.ts:28-31 | with distinct rows, whichever row is evicted, its token is no longer live after the create |
| Sessions.ThreeLoginsWithCapTwo | src/api/session/session.service.ts:21-57 | three logins of a user with cap 2 leave two sessions: the third token and exactly one of the first two, whichever the lookup did not return |
| Sessions.SessionStore.CreateSession | src/api/session/session.service.ts:21-57 | never throws: an error reply (BADREQUEST) exactly when the cap is 0 and the user has no row, otherwise success; the old and new tables are related by `AfterCreate`, the victim being any row of the user; no user holds more than a non-negative cap of rows before or after |
| Sessions.SessionStore.ValidateSession | src/api/session/session.service.ts:65-76 | true iff some row has both the user id and the token; changes nothing |
| Sessions.SessionStore.DeleteSession | src/api/session/session.service.ts:84-95 | true iff a matching row existed; the new table is the old one without every matching row; the per-user cap bound is kept |
| Sessions.SessionStore.DeleteAllSessions | src/api/session/session.service.ts:102-113 | false iff the user had no rows; the new table is the old one without that user's rows; the per-user cap bound is kept |
| Auth.Split | src/utils/jwt/jwt.service.ts:57 | `split(' ')` yields at least one field and no field contains the separator |
| Auth.SplitJoin | src/utils/jwt/jwt.service.ts:57 | joining the fields of a split gives back the header |
| Auth.JoinSplit | src/utils/jwt/jwt.service.ts:57 | splitting a join of separator-free fields gives back the fields |
| Auth.ExtractToken | src/utils/jwt/jwt.service.ts:57-58 | a token, when there is one, is non-empty and contains no space |
| Auth.TokenIsSecondField | src/utils/jwt/jwt.service.ts:57 | the token is the second space-separated field, whatever the first |
| Auth.BearerHeader | src/utils/jwt/jwt.service.ts:57 | `<scheme> <token>` yields exactly that token for any scheme word |
| Auth.Authenticate | src/utils/jwt/jwt.service.ts:55-73 | no token: the request's prior user is returned unchanged; a rejection implies a token was presented; acceptance implies the verifier's claims and a live session for them; verified and live implies acceptance |
| Auth.JwtAuthService.CreateToken | src/utils/jwt/jwt.service.ts:33-48 | the token is the signer applied to `{ userId, role }` |
| Auth.JwtAuthService.Validate | src/utils/jwt/jwt.service.ts:55-73 | returns `Authenticate` of the request; `req.user` becomes the verified claims on acceptance and is otherwise left as it was |
| Guards.RefusalStatus | src/utils/jwt/jwt.guard.ts:45-51 | a refusal is answered with 401 or 403, and 403 exactly for a role refusal; `DeadTokenIsUnauthorized` and `AdminOrEditorDecides` state which requests get which |
| Guards.Gate | src/utils/jwt/jwt.guard.ts:13-53 | the request path, `validate` then the route's guard: an admitted request either carries no token and keeps its prior user, or carries a verified token with a live session for that identity; a role-gated route admits only its roles; only a role-gated route answers 403 |
| Guards.AuthGuard | src/utils/jwt/jwt.guard.ts:13-23 | allowed iff `validate` yields a present identity (that identity), never 403: every error becomes 401 |
| Guards.RolesGuard | src/utils/jwt/jwt.guard.ts:33-53 | 401 exactly when authentication fails; 403 exactly when authenticated with a role outside a declared list; no list behaves as authentication alone; an empty list never allows |
| Guards.DeadTokenIsUnauthorized | src/utils/jwt/jwt.service.ts:58-72 | a presented token that fails verification or has no live session is 401 on every route |
| Guards.AdminOrEditorDecides | src/api/albums/albums.controller.ts:17-18 | on the catalogue write routes a live VIEWER gets 403 and a live ADMIN or EDITOR passes |
| Guards.AdminOnlyAdmitsOnlyAdmin | src/api/user/user.controller.ts:29-30 | the user-administration routes admit only the ADMIN role |
| Guards.LoginThenRequest | src/api/user/user.service.ts:131-138 | after a login, `Bearer <token>` passes the gate as the logged-in identity |
| Guards.LoggedOutTokenIsUnauthorized | src/api/user/user.service.ts:146-160 | after logout, the same token is refused with 401 |
| Guards.RevokedUserIsUnauthorized | src/api/session/session.service.ts:102-113 | after all of a user's sessions are deleted, every token naming that user is refused with 401 |
| Guards.EvictedTokenIsUnauthorized | src/api/session/session.service.ts:26-31 | the token evicted by a login at the cap, whichever row of the user it was, is refused with 401 |
| UserDto.TrimStart | src/api/user/dto/user.dto.ts:11 | the result is a suffix of the input, everything cut is whitespace, and it does not start with whitespace |
| UserDto.TrimEnd | src/api/user/dto/user.dto.ts:11 | the result is a prefix of the input, everything cut is whitespace, and it does not end with whitespace |
| UserDto.TrimIdempotent | src/api/user/dto/user.dto.ts:11 | trimming twice is trimming once |
| UserDto.LowerTrimCommute | src/api/user/dto/user.dto.ts:10-11 | lower-casing and trimming commute, so the order of the email decorators does not matter |
| UserDto.UpperTrimCommute | src/api/user/dto/user.dto.ts:41-42 | upper-casing and trimming commute, so the order of the role decorators does not matter |
| UserDto.NormalizeEmailIdempotent | src/api/user/dto/user.dto.ts:10-11 | normalising an email twice is normalising it once |
| UserDto.Scan | src/api/user/dto/user.dto.ts:16 | one pass records exactly whether a lowercase letter, an uppercase letter, a digit, a listed special character and a whitespace character occur |
| UserDto.ValidPassword | src/api/user/dto/user.dto.ts:16 | the one-pass check accepts iff the password has 8 to 16 non-whitespace characters with a lowercase letter, an uppercase letter, a digit and one of `@#$%*_+<>/=-` |
| UserDto.ParsePassword | src/api/user/dto/user.dto.ts:16-22 | a password field is accepted iff its trimmed value meets the policy, and the trimmed value is what is kept |
| UserDto.ParseEmail | src/api/user/dto/user.dto.ts:10-14 | an email field is accepted iff it is not blank, and is kept trimmed and lower-cased |
| UserDto.ParseAddRole | src/api/user/dto/user.dto.ts:5-8 | the role is EDITOR or VIEWER exactly when the trimmed, upper-cased field names it; the type excludes ADMIN |
| UserDto.ParseSignup | src/api/user/dto/user.dto.ts:9-23 | a signup body is accepted iff the email is not blank and the password meets the policy |
| UserDto.ParseAddUser | src/api/user/dto/user.dto.ts:25-46 | an add-user body is accepted iff the email is not blank, the password meets the policy and the role is EDITOR or VIEWER |
| UserDto.ParseLogin | src/api/user/dto/user.dto.ts:48-62 | a login body is accepted iff the email is not blank and the password meets the policy |
| UserDto.ParseUpdatePassword | src/api/user/dto/user.dto.ts:64-80 | an update-password body is accepted iff both passwords meet the policy |
| Users.RoleFilter | src/api/user/user.service.ts:90 | no filter exactly for an empty role, else a filter on that role; the rows it selects are stated by `RoleFilterSelects` |
| Users.RoleFilterSelects | src/api/user/user.service.ts:90 | an empty role selects every row; a row's own role name selects it; a name that is no role selects nothing |
| Users.InsertNonAdmin | src/api/user/user.service.ts:40 | inserting a non-ADMIN row keeps at most one ADMIN |
| Users.UserService.AddUser | src/api/user/user.service.ts:24-54 | a taken email gives CONFLICT with `error: false` and no change; otherwise exactly one non-ADMIN row with the hashed password is inserted; at most one ADMIN, the ADMIN is kept and unique emails stay unique |
| Users.UserService.CreateUser | src/api/user/user.service.ts:56-86 | any existing ADMIN gives BADREQUEST with `error: false` and no change; otherwise exactly one ADMIN row is inserted; on an empty table this leaves one ADMIN and unique emails |
| Users.UserService.GetAllUsers | src/api/user/user.service.ts:88-109 | returns exactly the rows of the given role, or every row when the role is empty |
| Users.UserService.LoginUser | src/api/user/user.service.ts:111-144 | unknown email gives NOTFOUND and a wrong password UN_AUTHORIZED, neither touching sessions or issuing a token; on success the token is the signature of the matched row's `{ userId, role }` and the old and new session tables are related by `AfterCreate` with that token; a session failure throws; a successful login leaves its token live in the store the token service checks; with unique emails the token is determined by the email |
| Users.UserService.LogoutUser | src/api/user/user.service.ts:146-160 | throws iff the `(user, token)` session was not live; that session is removed, so the token service no longer finds it |
| Users.UserService.UpdatePassword | src/api/user/user.service.ts:162-199 | a missing user throws; a wrong old password is reported before an unchanged one; only the remaining case changes the row, and only its password (to the hash of the new one) |
| Users.UserService.DeleteUser | src/api/user/user.service.ts:201-237 | NOTFOUND for an unknown key, ACTION_NOT_ALLOWED for the ADMIN, otherwise exactly that row is removed; the ADMIN is never removed |
| Artists.ApplyArtistLaws | src/api/artists/artists.service.ts:160 | a partial update applied twice equals once, an empty one changes nothing, a full one replaces the row |
| Artists.ArtistFilter | src/api/artists/artists.service.ts:62-71 | the built where-clause selects exactly the rows with the given grammy count when it is non-zero and the hidden rows when `hidden` is true |
| Artists.FalsyArtistFiltersIgnored | src/api/artists/artists.service.ts:65-71 | `grammy=0` and `hidden=false` build the same where-clause as leaving them out |
| Artists.ArtistsService.AddArtist | src/api/artists/artists.service.ts:26-49 | always inserts exactly one row, with no duplicate check |
| Artists.ArtistsService.GetAllArtists | src/api/artists/artists.service.ts:60-97 | returns exactly the rows the truthy filters select |
| Artists.ArtistsService.GetArtist | src/api/artists/artists.service.ts:105-134 | NOTFOUND iff the key is unknown, else that row |
| Artists.ArtistsService.UpdateArtist | src/api/artists/artists.service.ts:143-178 | NOTFOUND and no change for an unknown key; an empty body affects no row and throws, with no change; otherwise the supplied fields overwrite that row alone (NOCONTENT) |
| Artists.ArtistsService.DeleteArtist | src/api/artists/artists.service.ts:186-221 | NOTFOUND and no change for an unknown key; otherwise that row is removed and its key returned |
| Albums.ApplyAlbumLaws | src/api/albums/albums.service.ts:208 | a partial update applied twice equals once, an empty one changes nothing, and without `artist_id` the artist stays |
| Albums.InsertKeepsUnique | src/api/albums/albums.service.ts:47-59 | inserting after the `(artist_id, name, year)` guard keeps that triple unique |
| Albums.UpdateCanBreakUnique | src/api/albums/albums.service.ts:194-208 | an update can give an album another album's triple, so uniqueness is guaranteed only at insert |
| Albums.AlbumFilter | src/api/albums/albums.service.ts:90-100 | the built where-clause selects exactly the rows of the supplied artist and, when `hidden` is true, the hidden rows |
| Albums.HiddenFalseIgnored | src/api/albums/albums.service.ts:98-100 | `hidden=false` builds the same where-clause as leaving it out |
| Albums.AlbumsService.AddAlbum | src/api/albums/albums.service.ts:30-77 | unknown artist gives NOTFOUND, a taken triple CONFLICT, both with no change; otherwise exactly one row is inserted; uniqueness of the triple is kept |
| Albums.AlbumsService.GetAllAlbums | src/api/albums/albums.service.ts:88-128 | returns exactly the rows the truthy filters select |
| Albums.AlbumsService.GetAlbum | src/api/albums/albums.service.ts:136-169 | NOTFOUND iff the key is unknown, else that row |
| Albums.AlbumsService.UpdateAlbum | src/api/albums/albums.service.ts:178-226 | NOTFOUND for an unknown album or a supplied unknown artist, with no change; an empty body affects no row and throws, with no change; otherwise the supplied fields overwrite that row alone, with no uniqueness re-check |
| Albums.AlbumsService.DeleteAlbum | src/api/albums/albums.service.ts:234-268 | NOTFOUND and no change for an unknown key; otherwise exactly that row is removed |
| Tracks.ApplyTrackLaws | src/api/tracks/tracks.service.ts:212 | a partial update applied twice equals once, and an empty one changes nothing |
| Tracks.UpdateCanBreakAssociation | src/api/tracks/tracks.service.ts:198-212 | an update that supplies only `album_id` skips the association check and can leave a track on another artist's album |
| Tracks.TrackFilter | src/api/tracks/tracks.service.ts:88-99 | the built where-clause selects exactly the rows of the supplied artist and album and, when `hidden` is true, the hidden rows |
| Tracks.TracksService.AddTrack | src/api/tracks/tracks.service.ts:31-74 | NOTFOUND unless the album exists and belongs to the named artist; CONFLICT for a name already on that album; otherwise exactly one row is inserted; tracks stay on albums of their artist |
| Tracks.TracksService.GetAllTracks | src/api/tracks/tracks.service.ts:86-131 | returns exactly the rows the truthy filters select |
| Tracks.TracksService.GetTrack | src/api/tracks/tracks.service.ts:138-174 | NOTFOUND iff the key is unknown, else that row |
| Tracks.TracksService.UpdateTrack | src/api/tracks/tracks.service.ts:183-227 | NOTFOUND for an unknown key; BADREQUEST when both ids are supplied and unassociated; an empty body affects no row and throws, with no change; otherwise the supplied fields overwrite that row alone |
| Tracks.TracksService.DeleteTrack | src/api/tracks/tracks.service.ts:235-265 | NOTFOUND and no change for an unknown key; otherwise exactly that row is removed |
| Favorites.NoDuplicatesPreserved | src/api/favorites/favorites.service.ts:58-70 | the `(item_id, user_id)` guard before an insert, and any removal, keep that pair unique |
| Favorites.FavoritesService.AddFavorite | src/api/favorites/favorites.service.ts:39-87 | NOTFOUND unless the item is in its category's table; CONFLICT for an item key the user already has, whatever the category, which under globally distinct keys means that same item of that category; otherwise exactly one `(item, category, user)` row; no user has one item twice, and key distinctness is kept |
| Favorites.FavoritesService.GetFavorite | src/api/favorites/favorites.service.ts:97-140 | returns exactly the rows of that category and that user |
| Favorites.FavoritesService.DeleteFavorite | src/api/favorites/favorites.service.ts:147-181 | NOTFOUND and no change for an unknown key; otherwise that row is removed, whoever owns it |

## Left out

- Cryptography:
  - JWT signing, verification and expiry (`@nestjs/jwt`) are the opaque functions `sign` and `verify`. `verify` returning `None` stands for `verifyAsync` throwing.
  - A verifier that succeeds with a falsy payload is not modelled.
  - bcrypt `hash` (random salt included) and `compare` are opaque functions on the user service.
- Database and transport:
  - Sequelize transactions (commit/rollback), `limit`/`offset` pagination, attribute projections, joins for artist/album/item names, `toJSON`, and `Logger` calls.
  - The controllers' response wrapping.
  - The dialect comes from `DB_DIALECT`. Assuming MySQL, string comparison there is case-insensitive; the model compares exactly.
- Thrown paths that need a database failure. These are the `!create` and `!destroy` checks after a successful lookup, the `!update[0]` checks for a body that sets at least one column, and the `catch` branches. The model has no such failures. The thrown paths reachable without a database failure are modelled: the missing user in `updatePassword`, the non-live session in `logoutUser`, the failed `createSession` (cap 0) in `loginUser`, and the empty update body in `updateArtist`, `updateAlbum` and `updateTrack`, for which `update` sets no column and reports no affected row.
- Foreign keys:
  - The database's cascades on delete are not modelled: sessions and favourites of a deleted user, albums of a deleted artist, tracks of a deleted album.
  - `Guards.RevokedUserIsUnauthorized` states what the session cascade achieves.
  - Foreign-key rejection of an update naming a missing artist or album is not modelled.
- Session cap:
  - `CONFIG.allowedSessions` is an `int`. A NaN cap (a missing setting) or a fractional one (such as `2.5`) never equals a count; it behaves as the model's negative caps do: nothing is ever evicted and no bound holds.
  - Concurrent logins of one user (the count-then-evict race) are not modelled; the model is sequential.
- `Sessions.SessionStore.CreateSession`: the error message is `DATA_FETCH_ERROR`. A failure of the insert itself is not modelled.
- Strings:
  - Case mapping covers ASCII letters only.
  - Lengths count characters, not UTF-16 code units, so the 8–16 password bound differs for characters outside the Basic Multilingual Plane.
- Query-string conversion: the controllers' conversion of query values is represented by `Option` arguments, `None` meaning absent, empty or non-numeric.
- The non-user DTOs (artists, albums, tracks, favourites) and their transforms are not part of this model. The services take their bodies as already-validated records.
- `Sessions.EvictedIsNotLive`: assumes no `(user, token)` row is stored twice, and nothing establishes that. Two logins of one user within the same second sign identical tokens (same claims, same issue time), and evicting one of two such rows leaves the token live. `Guards.EvictedTokenIsUnauthorized` carries the same hypothesis.
- `Users.UserService.LoginUser`: the unordered `findOne` by email is a nondeterministic choice among the rows with that email. The token is pinned down only when emails are unique.
- `Favorites.FavoritesService.AddFavorite`: keys are fresh only within their own table, so the model admits an artist and an album with the same key, for which a favourite of one would make the other CONFLICT where the source answers CREATED. The UUIDs' global uniqueness is stated as the hypothesis `KeysDistinct`, under which a CONFLICT means the same item of the same category; the artist, album and track services do not maintain it.
- `Favorites.FavoritesService.GetFavorite`: the service's NOTFOUND branch tests the result object of a count query, which is never falsy. The model always answers SUCCESS.
