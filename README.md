# Chirpy, modelled in Dafny

Chirpy is a small HTTP backend for short posts ("chirps"). This project models its core:

- the profanity filter applied to a chirp before it is stored;
- the decision procedures of the chirp, user, login, refresh-token, webhook and admin handlers, each an ordered series of checks ending in one status code;
- the credential helpers in `internal/auth`:
  - bearer-token extraction;
  - refresh-token generation (hex of 32 random bytes);
  - the claims of the one-hour session token and the checks applied when it is validated;
- the visit counter of the file server and the admin pages that read and reset it.

The project proves properties of each of these.

Modules and files:

| file | module | what it holds |
|---|---|---|
| `wrappers.dfy` | `Wrappers` | `Option`, `Result` |
| `strings.dfy` | `Strings` | the pieces of Go's `strings`, `unicode` and `fmt` that the handlers use, with their laws |
| `hex.dfy` | `Hex` | `encoding/hex`, lower-case encoding and decoding, and the round trips |
| `uuids.dfy` | `Uuids` | `uuid.UUID`, its `String` form, and `uuid.Parse` over all four accepted layouts |
| `auth.dfy` | `Auth` | `GetBearerToken`, `MakeRefreshToken`, and `MakeJWT`/`ValidateJWT` at the level of claims |
| `store.dfy` | `Store` | the database as a class over three maps, with the schema's constraints as its invariant `Valid()` |
| `http.dfy` | `Http` | status codes, response bodies, `respondWithError`, and the per-request environment |
| `server.dfy` | `Server` | `apiConfig` as a class, the counting middleware, the metrics page |
| `moderation.dfy` | `Moderation` | `cleanUpBadWords` and its properties, with the table-test cases |
| `chirps.dfy` | `Chirps` | the five chirp handlers, the author filter and the sort |
| `users.dfy` | `Users` | sign-up, login, refresh, revoke and update |
| `reset.dfy` | `Reset` | the admin reset |

## How the model is built

Each handler is a method taking the configuration (`Server.ApiConfig`, the Go receiver `cfg`) and an `Http.Env`. The environment supplies everything the handler gets from outside:

- the clock reading `now`, in seconds;
- the id the database would generate;
- the set of queries that fail for reasons outside the data, such as a lost connection;
- the argon2id hasher and checker, as function values;
- the JWT library, as a pair of sign and verify functions (`Auth.JwtCodec`);
- whether `crypto/rand.Read` succeeds, and the bytes it yields.

The request's decoded JSON body is an `Option`: `None` means the decoder failed.

A handler returns the `Response` it writes, with its status and body. Handlers that write change `cfg.db` in place, and their contracts state the new state of each table.

The store (`Store.Database`) stands in for the sqlc-generated package, which is not part of this model. Its methods have contracts that follow the schema chirpy relies on:

- rows are keyed by id;
- email addresses are unique;
- chirps and refresh tokens reference an existing user;
- a refresh token grants access only if it is not revoked and the clock is before its expiry;
- an update sets `updated_at` to the current time;
- the reset deletes every user and, by cascade, every chirp and token;
- revoking an unknown refresh token is an error;
- deleting a chirp that is not there is no error;
- upgrading a user that does not exist is an error.

These are assumptions about SQL the model cannot see. They are stated once, in `store.dfy`.

The code is followed where it differs from the prose description of the service:

- The 140 limit on a chirp is checked with Go's `len`, which counts UTF-8 bytes. It is not measured in characters or UTF-16 code units. `Strings.Utf8Len` models this.
- The limit is checked before moderation, on the text as sent.
- `strings.TrimSpace` and `strings.ToLower` are modelled beyond ASCII:
  - `TrimSpace` uses every rune `unicode.IsSpace` accepts;
  - `ToLower` maps U+0130 to `i` and U+212A (the Kelvin sign) to `k`, as Go does, so `"Kerfuffle"` is redacted.

  Every other non-ASCII rune's lower case is also non-ASCII, so the outcome against the ASCII word list is unchanged.

This snapshot of the repository is not self-consistent. The model resolves the gaps this way:

- `auth.GetBearerApi`, which `chirps.go` calls, is modelled as `GetBearerToken` with the prefix `"ApiKey "`.
- `cfg.polkaApiKey` becomes a field of `ApiConfig`.
- The user record carries `is_chirpy_red`, as `users.go` uses it.

## Model

| member | source | states |
|---|---|---|
| Strings.TrimSpace | internal/auth/auth.go:101 | the result has no whitespace at either end and is no longer than the input |
| Strings.TrimSpaceIsSlice | internal/auth/auth.go:101 | the trimmed text is the slice of the input that starts where the leading whitespace ends; everything cut off before and after it is whitespace |
| Strings.TrimSpacePadded | internal/auth/auth.go:101 | trimming any whitespace padding around a trimmed text gives that text back |
| Strings.TrimSpaceAllSpace | internal/auth/auth.go:101 | a text made only of whitespace trims to "" |
| Strings.AsciiSpaces | internal/auth/auth.go:101 | in the ASCII range `unicode.IsSpace` holds exactly for space, tab, newline, vertical tab, form feed and carriage return |
| Strings.TrimPrefix | internal/auth/auth.go:100 | with the prefix present, prefix + result is the input; without it, the input is returned unchanged |
| Strings.HasPrefixAppend | internal/auth/auth.go:94-100 | `strings.HasPrefix` holds of prefix + t, and `TrimPrefix` then gives t back |
| Strings.ToLower | chirps.go:125 | one rune out per rune in: 'A'-'Z' become 'a'-'z', U+0130 becomes 'i', U+212A becomes 'k', every other rune is kept; no ASCII capital is left |
| Strings.Split | chirps.go:123 | one piece more than there are spaces in the input |
| Strings.Join | chirps.go:129 | "" for no pieces; otherwise as long as all pieces together plus one separator between each two neighbours |
| Strings.JoinSplit | chirps.go:123-129 | joining the pieces of a split with single spaces gives the input back, so every space is kept in place |
| Strings.SplitPiecesHaveNoSpace | chirps.go:123 | no piece of a split contains a space |
| Strings.SplitJoin | chirps.go:123-129 | splitting a join of space-free pieces gives the same pieces back, including empty pieces |
| Strings.JoinNoLonger | chirps.go:124-129 | joining pieces that are each no longer, in runes and in UTF-8 bytes, than their counterparts gives a text that is no longer |
| Strings.Utf8Len | chirps.go:62 | `len` of a string: between one and four bytes per rune, exactly one per rune for ASCII text |
| Strings.Utf8LenAppend | chirps.go:62 | the byte length of a concatenation is the sum of the byte lengths |
| Strings.IntToDecimal | main.go:41-46 | `%d`: a non-empty run of digits for n >= 0; for n < 0 a minus sign followed by digits |
| Strings.DecimalRoundTrip | main.go:41-46 | the `%d` rendering of any integer parses back to that integer |
| Hex.Encode | internal/auth/auth.go:112 | the encoding has two characters per byte, all lower-case hex digits |
| Hex.DecodeEncode | internal/auth/auth.go:112 | decoding the hex encoding of any bytes returns those bytes |
| Hex.EncodeDecode | internal/auth/auth.go:112 | every text of lower-case hex digits of even length decodes, to bytes whose encoding is that text |
| Uuids.UuidStringShape | internal/auth/auth.go:44 | `String()` is 36 runes: dashes at 8, 13, 18 and 23, and the hex of bytes 0-3, 4-5, 6-7, 8-9 and 10-15 between them |
| Uuids.UuidString | internal/auth/auth.go:44 | `uuid.UUID.String()` is 36 runes long (its layout is the row above) |
| Uuids.UuidStringParses | internal/auth/auth.go:81-85 | `uuid.Parse` of `u.String()` returns `u` |
| Uuids.ParseUuid | internal/auth/auth.go:81-84 | `uuid.Parse` accepts only ASCII texts of 32, 36, 38 or 45 runes |
| Uuids.ParseUuidBare | internal/auth/auth.go:81-84 | the 32-digit form without dashes of an identifier parses back to it |
| Auth.StripScheme | internal/auth/auth.go:89-103 | an error exactly when the header is empty or lacks the prefix, and then the value is ""; otherwise the result is trimmed and shorter than the header by at least the prefix |
| Auth.GetBearerToken | internal/auth/auth.go:88-104 | succeeds exactly when the header starts with the case-sensitive "Bearer " (space included); the value is "" on error, trimmed otherwise |
| Auth.GetBearerApi | chirps.go:252-256 | the same procedure with the prefix "ApiKey " |
| Auth.BearerTokenRoundTrip | internal/auth/auth.go:100-103 | "Bearer " + whitespace + a trimmed token + whitespace gives back exactly that token |
| Auth.BearerTokenIsSliceOfHeader | internal/auth/auth.go:100-103 | a returned token is a slice of the header after "Bearer ", with only whitespace before and after it |
| Auth.BearerTokenRejects | internal/auth/auth.go:89-98 | "" is refused as missing; "Bearer" and "bearer abc" are refused for lacking the prefix |
| Auth.BearerTokenBlank | internal/auth/auth.go:100-103 | "Bearer " and "Bearer    " give the empty token with no error |
| Auth.BearerTokenOnePrefix | internal/auth/auth.go:100-101 | only one prefix is removed: "Bearer Bearer x" gives "Bearer x" |
| Auth.MakeRefreshToken | internal/auth/auth.go:106-114 | a failed read gives "" and the error; otherwise 64 lower-case hex characters, the encoding of the 32 bytes read, which decode back to them |
| Auth.MakeJwt | internal/auth/auth.go:40-54 | fails only when signing fails, and then gives ""; a token from a sound library verifies to issuer "chirpy", subject `userID.String()`, issued at now, expiring at now + lifetime |
| Auth.ParseWithClaims | internal/auth/auth.go:61-67 | succeeds exactly when the signature verifies and the token has not expired |
| Auth.ValidateJwt | internal/auth/auth.go:56-86 | `uuid.Nil` on every error; success exactly when the signature verifies, the token is live, the issuer is "chirpy" and the subject parses as a UUID, and the result is that UUID |
| Auth.SessionTokenRoundTrip | internal/auth/auth.go:40-86 | a token minted for a user validates to that user at any time before it expires |
| Auth.SessionTokenExpires | internal/auth/auth.go:45-67 | once its lifetime has passed, the same token is rejected as expired with `uuid.Nil` |
| Store.Database.constructor | main.go:68 | an empty database satisfies the schema's constraints |
| Store.Database.CreateUser | users.go:55-62 | a new row with `is_chirpy_red` false and both timestamps now; refused when the id or the email is taken, or on a fault; nothing else changes |
| Store.Database.EmailFreeNow | users.go:55-58 | computed over the rows: true exactly when no other user has the address |
| Store.Database.GetUserUsingEmail | users.go:93-97 | succeeds exactly when some user has the address, with that user |
| Store.Database.UpdateUserPassEmail | users.go:214-224 | the token's user gets the new email and hash and `updated_at` now; refused when that user is gone or the email belongs to another user |
| Store.Database.UpgradeToChirpyRed | chirps.go:281-285 | the user is marked paid and `updated_at` is now; refused when the user does not exist |
| Store.Database.ResetUsers | reset.go:11-15 | every table is emptied; on a fault nothing changes |
| Store.Database.CreateChirp | chirps.go:69-77 | a new chirp with both timestamps now, refused when the author does not exist |
| Store.Database.GetChirps | chirps.go:135-139 | every stored chirp, each once, and nothing else |
| Store.Database.GetChirpsByID | chirps.go:188-192 | the stored chirp with that id; an error when there is none |
| Store.Database.DeleteChirpsByID | chirps.go:235-239 | the chirp is removed, and a missing chirp is no error; other tables are unchanged |
| Store.Database.CreateRefreshToken | users.go:122-131 | a new token row owned by the user, with the given expiry and no revocation; refused when the token exists or the user does not |
| Store.Database.GetUserFromRefreshToken | users.go:152-156 | the owner of a known token that is unrevoked and unexpired at now; an error otherwise |
| Store.Database.RevokeToken | users.go:178-182 | a known token gets `revoked_at` and `updated_at` now; an error for an unknown token |
| Http.RespondWithError | chirps.go:87-105 | the given status with the body `{"error": msg}` |
| Http.View | users.go:64-69 | the response shows the stored id, timestamps, email and paid flag, and never the password hash |
| Http.Authenticate | chirps.go:44-54 | which of GetBearerToken and ValidateJWT fails first, with its error, or the validated user |
| Http.QueryGet | chirps.go:142 | the query value for a key, or "" when it is absent |
| Server.WrapInt32 | main.go:27 | the result is an int32, equal to the input when that is one, and congruent to it modulo 2^32 |
| Server.ApiConfig.constructor | main.go:69-74 | the counter starts at 0 |
| Server.ApiConfig.MiddlewareMetricsInc | main.go:32-37 | one request under /app/ adds exactly one to the counter, wrapping as an int32 |
| Server.ApiConfig.RequestCountHandler | main.go:39-48 | status 200 and exactly the metrics page for the current count, from which that count reads back; the counter is not changed |
| Server.VisitsCounted | main.go:34 | after n requests the counter shows n, for every n up to 2^31 - 1 |
| Server.VisitsWrapAround | main.go:27-34 | request number 2^31 wraps the counter to -2^31 |
| Server.MetricsPage | main.go:41-46 | the page starts with the fixed opening text and ends with the fixed closing text, with something in between |
| Server.MetricsPageReadsBack | main.go:41-46 | the page is the fixed template with the count in decimal, and the number in it is the count |
| Moderation.CleanUpBadWords | chirps.go:120-131 | the new body is the input's pieces, each redacted, joined back with single spaces |
| Moderation.ModeratePieces | chirps.go:121-127 | the output has as many pieces as the input; a piece changes exactly when its lower-case form is kerfuffle, sharbert or fornax, and then becomes "****" |
| Moderation.ModerateKeepsCleanText | chirps.go:121-130 | a body without banned words is returned unchanged |
| Moderation.ModerateIdempotent | chirps.go:121-130 | moderating a moderated body changes nothing ("****" is not banned) |
| Moderation.ModerateNoLonger | chirps.go:121-130 | moderation never lengthens the body, in runes or in UTF-8 bytes |
| Moderation.ModerateByPieces | chirps.go:123-129 | for space-free pieces, moderating their join gives the join of the redacted pieces |
| Moderation.ModerateEmpty | parameters_test.go:29-33 | "" stays "" |
| Moderation.ModerateExampleClean | parameters_test.go:14-18 | "I love coding in go" is unchanged |
| Moderation.ModerateExampleOne | parameters_test.go:19-23 | "this is a kerfuffle" becomes "this is a ****" |
| Moderation.ModerateExampleMixedCase | parameters_test.go:24-28 | "Fornax and Sharbert are banned" becomes "**** and **** are banned" |
| Moderation.ModerateExamplePunctuation | parameters_test.go:34-38 | "Sharbert! that was an awesome Fornax@" is unchanged, because punctuation keeps a word from matching |
| Chirps.CreateChirpHandler | chirps.go:34-85 | checks in order: decode 500, bearer or JWT 401, empty body or Nil user 400, more than 140 bytes 400 "Chirp is too long", a failed insert 500 "Something went wrong when creating chirp"; 201 exactly when all pass, with the moderated body stored under the token's user; that body is at most 140 bytes |
| Chirps.ByAuthorMembers | chirps.go:154-157 | a chirp is kept by the author filter exactly when it is in the input and the filter is Nil or matches its author |
| Chirps.ByAuthorSubMultiset | chirps.go:154-166 | the filtered list is a sub-multiset of the input |
| Chirps.ByAuthor | chirps.go:153-166 | the filtered list is no longer than the input, and with the Nil filter it is the input |
| Chirps.FilterByAuthor | chirps.go:153-166 | the append loop computes the author filter |
| Chirps.AuthorFilter | chirps.go:141-149 | no `author_id` means no filter (Nil); a non-Nil filter is what `uuid.Parse` makes of the given `author_id` |
| Chirps.AuthorFilterOfUuid | chirps.go:141-149 | an `author_id` sent in canonical form selects exactly that author |
| Chirps.SortChirps | chirps.go:168-176 | the slice ends up as a permutation of itself, ordered by creation time, newest first for "desc" and oldest first otherwise |
| Chirps.GetChirpsHandler | chirps.go:133-179 | store error 500 before `author_id` is looked at; 400 only for a non-empty unparsable `author_id`; otherwise 200 with exactly the stored chirps of that author (all for Nil), each once, sorted as asked |
| Chirps.GetChirpsByIDHandler | chirps.go:181-201 | bad UUID 400; any lookup failure 404; otherwise 200 with the stored chirp |
| Chirps.DeleteChirpHandler | chirps.go:203-242 | checks in order: 401, 401, 400, 404, 403 (not the author), 500 when the author's delete fails; the chirp is removed exactly when the answer is 204, so only its author can delete it |
| Chirps.AddChirpyRedHandler | chirps.go:251-287 | missing or wrong key 401; decode 500; other events 204 with no change; bad `user_id` 500; any upgrade error 404; otherwise 204 with the user marked paid |
| Users.SessionTokenLastsAnHour | users.go:110 | a login session token validates to its user at every second of the following hour |
| Users.CreateUserHandler | users.go:41-81 | every failure is 500 (decode, hash, a taken email or any store error); 201 exactly when the row is created, showing the stored user |
| Users.LoginUserHandler | users.go:83-143 | an unknown email, an unreadable hash and a wrong password all give 401 "Incorrect email or password"; a signing failure gives 500; a random-source failure gives 401, and so does a failed refresh-token insert, never 500; on 200 the stored user, a one-hour token and a 64-hex refresh token stored with expiry now + 60 days |
| Users.RefreshTokenHandler | users.go:145-169 | 401 when the bearer is missing, the token is unknown, revoked or expired, or minting fails; otherwise 200 with a one-hour token for the token's owner; the store is not changed |
| Users.RevokeTokenHandler | users.go:171-185 | 204 exactly when the bearer is present and the token is known; the token is then revoked and never usable again; 401 otherwise, with no change |
| Users.UpdateUserHandler | users.go:187-236 | 401 for bearer or JWT failures before the body is read; decode, hash and store failures 500; on 200 the row changed is the token's user, never one named by the body |
| Reset.RequestResetHandler | reset.go:8-20 | the counter is 0 afterwards whatever happens; the store is wiped only when the platform is exactly "dev"; 403 only when that wipe fails; otherwise 200 "Hits reset to 0 and db reset" |

## Left out

- Password hashing (`HashPassword`, `CheckPasswordHash`): argon2id is a third-party library, so the model takes it as two functions supplied with the request.
- The JWT library's internals: HMAC-SHA-256 signing, serialisation and parsing are an abstract sign/verify pair. The sign/verify round trip is an explicit hypothesis (`Auth.SoundCodec`).
  - Only the expiry check is modelled, with the library's rule that a token is valid while now < `exp`.
  - The library's not-before and issued-at checks are left out: a token chirpy itself signs carries no `nbf`, and its `iat` is never later than the clock.
  - NumericDate's rounding to whole seconds is left out: the clock is in whole seconds throughout.
- `crypto/rand`: the random bytes and the success of the read are inputs.
- `time.Now()`: `MakeJWT` reads the clock twice and the login handler reads it again for the refresh-token expiry. The model uses one reading per request.
- The SQL of the database package is not part of this model. The store's contracts are the assumptions listed above.
  - Errors that originate in the driver are collapsed into a fault per query.
  - Their message text (`Store.DbMessage`, `Auth.Message`) is indicative, not the libraries' exact wording.
- JSON: decoding succeeds or fails as a whole; `json.Marshal` of these plain records cannot fail, so its error branches are not modelled.
- Routing, `http.FileServer` and `StripPrefix`, `readinessHandler`, environment loading and `main()`'s start-up checks are process set-up and I/O.
- Routes: only some handlers are registered in `main.go`. Delete, refresh, revoke, update and the webhook are modelled as handlers although no route reaches them in this snapshot.
- Concurrency: the counter is an `atomic.Int32` shared between requests; the model is sequential, one request at a time.
- Chirps.SortChirps: Go's `sort.Slice` algorithm is not reproduced. An insertion sort gives the same guarantee: an ordered permutation, with nothing promised about the order of equal timestamps.
- Query strings: a parameter given twice is seen through `url.Values.Get`, which takes the first value. The model takes a map with one value per key.
- Text is a sequence of Unicode scalar values, where a Go string is a sequence of bytes. A header or body holding invalid UTF-8, which Go would pass through `TrimSpace` and the key comparison unchanged, cannot be represented.
- LoginUserHandler: when the refresh-token insert fails, the contract states 401 with an error body but not the message, which is the driver's error text.
- The Content-Type headers and the exact bytes of the JSON bodies are left out; a body is the record it encodes.
