# bookmark-feeder: the Firefox Sync client core, in Dafny

This project models package `sync` of bookmark-feeder (`sync/client.go`). The
service logs in to a Firefox Account once at start-up and, per request, fetches
the account's synced bookmarks. It can narrow them to one bookmark folder.

The model has three parts:

- **`SyncClient.Login`, the login state machine.** It tries the initial login up
  to ten times. It retries only when the error message contains
  `ffsync.direct_out`, which is the server's "confirm this login by e-mail" answer.
  - Each retry prints a prompt and sleeps 30 seconds first.
  - If the server asks for TOTP or e-mail 2FA, it reads one line from the
    terminal, trims it and verifies it once as a one-time password.
  - It then runs the stage chain: register the device (`sync-client`, `cli`) →
    fetch keys → OAuth token → Hawk credentials → crypto keys → reduce → save the
    session file.
  - The first failing stage's error is returned. A failed save ends the process
    with status 1.
- **`SyncClient.GetBookmarks`, the request path.** It runs load session file →
  refresh session → list the `bookmarks` collection → decode.
  - Each of the first three failures is wrapped as `failed to load session`,
    `failed to refresh session` or `failed to get bookmarks`.
  - A decoding failure ends the process with status 1.
- **`FilterBookmarks`.** It keeps, in order, the records whose parent folder name
  equals the requested name.

The Firefox Sync library (ffsyncclient) is not reimplemented. Its FxA client, the
session file and the record decoder are oracles: datatypes of total functions
(module `FFSync`). Every property therefore holds whatever the servers, the disk
and the decoder answer.

The initial login's answer is indexed by the attempt number. The same credentials
can be refused while the confirmation mail is unanswered and accepted later.

`Login` and `GetBookmarks` are methods. Each returns its outcome (`Ok`, `Err(error)`
or `Exit(status)`) together with a trace of events:

- every library call, with its arguments;
- every prompt, terminal read and sleep;
- every session write.

Each method is proved equal to a specification function (`LoginRun`, `Verified`,
`GetBookmarksRun`). `FilterBookmarks` is a loop proved equal to the function
`Filter`. The properties are proved about those functions in the modules
`LoginProperties`, `BookmarksProperties` and `FilterProperties`.

Go's `strings.Contains` and `strings.TrimSpace` (with `unicode.IsSpace`) are
modelled concretely in module `Strings`.

Files:

- `strings.dfy`: `Strings`.
- `ffsync.dfy`: `FFSync` (the library oracles and session types) and `Models`
  (`BookmarkRecord`, `UnmarshalBookmarks`).
- `sync_client.dfy`: `Sync` (the client, its methods and their specification
  functions).
- `login_properties.dfy`, `bookmarks_properties.dfy`, `filter_properties.dfy`:
  the proved properties.

## Model

| member | source | states |
|---|---|---|
| `Sync.SyncClient.Login` | sync/client.go:44-126 | The retry loop's outcome and trace are exactly `LoginRun`'s; the loop invariant says the trace so far followed by the run from the current attempt is the whole run |
| `Sync.SyncClient.FinishLogin` | sync/client.go:66-122 | The optional OTP check and the stage chain, each stage fed the session the previous one built, produce exactly `Verified`'s outcome and trace |
| `Sync.SyncClient.GetBookmarks` | sync/client.go:128-152 | The load → refresh → list → decode steps, each reassigning the session, produce exactly `GetBookmarksRun`'s outcome and trace |
| `Sync.FilterBookmarks` | sync/client.go:154-163 | The append loop returns `Filter(bookmarks, folderName)`; its invariant says `ret` is the filter of the prefix seen so far |
| `Sync.FilterConcat` | sync/client.go:156-160 | Filtering a concatenation is the concatenation of the filtered parts, which is why one pass with appends computes the filter |
| `Models.UnmarshalBookmarks` | sync/client.go:145 | Decoding a listing succeeds iff every record decodes. It then returns one record per listed record, in listing order. Otherwise its error is that of the first record that fails |
| `Strings.ContainsIffOccurs` | sync/client.go:56 | `Contains(s, sub)` holds iff `sub` occurs in `s` at some index (both directions) |
| `Strings.TrimSpaceSlice` | sync/client.go:71 | The trimmed OTP is a contiguous slice of the input line. It neither starts nor ends with white space, and only white space is removed around it |
| `LoginProperties.FirstSettled` | sync/client.go:52-61 | The first attempt not answered with pending verification, or 10 when all are; every attempt before it was pending |
| `LoginProperties.LoginRetryShape` | sync/client.go:52-125 | Every run is `k` rounds (login, e-mail prompt, 30 s sleep) for the pending attempts. Then comes the settling attempt's result, or the exhaustion error with nothing more when `k` reaches 10 |
| `LoginProperties.LoginExhausted` | sync/client.go:45-125 | If all 10 attempts are pending: error "failed to verify login after 10 attempts", exactly 10 login calls, 10 sleeps, no save |
| `LoginProperties.LoginHardFailure` | sync/client.go:54-63 | A non-pending initial-login error is returned unchanged at once: the trace ends with that login call, with no further sleep, attempt, stage or save |
| `LoginProperties.LoginAcceptedAfterPending` | sync/client.go:54-78 | After `k` pending rounds an accepted login continues with exactly `Verified` for the accepted session: k + 1 login calls and k sleeps |
| `LoginProperties.VerifiedHasNoRetry` | sync/client.go:66-122 | Once the initial login is accepted, no further login call and no sleep happens |
| `LoginProperties.StagesInOrder` | sync/client.go:80-122 | Stages run in the fixed order register → keys → OAuth → Hawk → crypto keys → save, none skipped or repeated. Every call before the last succeeded, and an error is the last call's. The result is `Err` iff the chain stops before the save. It exits with status 1 iff the save failed, and the save targets the session file path |
| `LoginProperties.StagesDataFlow` | sync/client.go:81-115 | The device is registered as "sync-client" of type "cli" with the accepted session; keys are fetched for that session; the OAuth token is requested with the session extended by those keys; Hawk credentials with the resulting OAuth session; crypto keys with the Hawk session; the reduced crypto session is what is saved, to the session file path |
| `LoginProperties.OtpOnlyWhenRequired` | sync/client.go:66-78 | The terminal is read and the OTP verified once iff the method is TOTP or mail 2FA, else never. The OTP is the trimmed line, checked against the accepted session. A rejected OTP is returned as the error with nothing after it |
| `LoginProperties.VerifiedFirstFailureAborts` | sync/client.go:66-122 | After an accepted login: every call but the last succeeded. `Ok` iff no call failed. An error is the last call's answer. There is exactly one save unless an error is returned, and then none. A run that does not return an error ends with the save |
| `LoginProperties.LoginSavesOnlyOnSuccess` | sync/client.go:44-126 | Over a whole run: 1 to 10 login calls, one sleep per pending answer, and exactly one save unless an error is returned. `Ok` ends with a successful save to the session path; `Exit(1)` ends with a failed save. An error is the exhaustion error, a non-pending login error, or the last call's answer |
| `BookmarksProperties.LoadFailureStopsRequest` | sync/client.go:129-132 | A load failure returns "failed to load session: <cause>" after the load alone |
| `BookmarksProperties.RefreshFailureSkipsListing` | sync/client.go:134-137 | A refresh failure returns "failed to refresh session: <cause>" before any listing |
| `BookmarksProperties.ListingUsesRefreshedSession` | sync/client.go:129-142 | The session file is loaded first and refreshed with force = false. The only listing is of "bookmarks", with the session the refresh returned |
| `BookmarksProperties.BookmarksFollowListing` | sync/client.go:139-151 | Bookmarks are returned iff every step succeeds. They are then the decoded records of that listing, one per record and in listing order |
| `BookmarksProperties.RequestFailureKinds` | sync/client.go:128-152 | Every step before the last succeeded. An error wraps the last step's error under that step's context. A decode failure is `Exit(1)` after all four steps |
| `FilterProperties.FilterIsMatchingSubsequence` | sync/client.go:154-162 | The result is exactly the records at the matching positions, in increasing order: the order-preserving subsequence whose parent name equals the folder name |
| `FilterProperties.FilterSound` | sync/client.go:157-158 | Every returned record comes from the input and lies in the folder |
| `FilterProperties.FilterMultiplicity` | sync/client.go:156-160 | Each record of the folder occurs in the output as often as in the input, and other records not at all |
| `FilterProperties.FilterNoLonger` | sync/client.go:154-162 | The output is no longer than the input, and as long iff every record is in the folder |
| `FilterProperties.FilterEmptyOrWhole` | sync/client.go:154-162 | No record in the folder gives an empty result; all records in it gives the input back |
| `FilterProperties.FilterIdempotent` | sync/client.go:154-162 | Filtering twice by the same folder equals filtering once |
| `FilterProperties.FilterExample` | sync/client.go:154-162 | [A in X, B in Y, C in X] filtered by "X" is [A, C] |

## Left out

- `main.go` is not part of this model. It holds the HTTP handler, the server set-up, configuration loading and the Atom feed, which are I/O around this package.
- `NewSyncClient` (sync/client.go:23-42) is not modelled. It only wires fixed server URLs into the library context. The `sessionPath` and `session` fields it never uses are not modelled either.
- The ffsyncclient internals are oracles: the FxA protocol, key derivation, Hawk signing, `Reduce`, the session file format and `LoadSession`. So nothing is claimed about what they compute.
- `Models.UnmarshalBookmarks` is not the library's code. It is modelled as a decode of each record in listing order, where the first record that fails fails the listing.
- `ListRecords` takes more filter arguments (nil, nil, false, true, nil, nil) than the model has. The model keeps only the session and the collection name, since those arguments are constant.
- Logging (`slog`) and the exact text printed to standard output are left out. The e-mail prompt and the OTP prompt appear only as trace events.
- The 30-second sleep is a `Sleep(30)` event, not a delay. As in the source, the run sleeps after every pending answer, including after the tenth attempt, just before it gives up.
- Reading the terminal is modelled by the line it returns, a parameter (`stdinLine`). The read error that the source ignores has no separate model.
- Go strings are UTF-8 byte strings. Here they are sequences of code points, so `strings.Contains` and `strings.TrimSpace` are modelled on code points.
- Concurrent calls of `GetBookmarks` from HTTP handlers are not modelled, nor is the last-writer-wins race on the session file. The model is sequential.
- The library context (`ffsCtx`) is not modelled.
