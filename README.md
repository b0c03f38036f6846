# Soirée 2401 — a verified model of the party site's logic

Soirée 2401 is a small Next.js site for one party. Guests log in with a shared password
and then use several features:

- they answer the invitation (RSVP);
- they join a roulette that the big screen spins;
- they say who brings what;
- they post on a message wall;
- they queue tracks on the Spotify player.

A dashboard shows the music, the roulette overlay and a countdown to the event.

This project models the logic behind those features in Dafny and proves what the code
promises about it. Each source file becomes one module:

| module | models |
|---|---|
| `Roulette` | `lib/roulette.ts`: the roulette record, its recovery when unreadable, joining, spinning, the presents list |
| `RouletteJoin` | `app/api/roulette/join/route.ts`: the client address, the 4-second per-address cooldown, the join endpoint |
| `QuiRameneStore` | `lib/quiRameneStore.ts`: categories, item normalisation, parsing with recovery and backups, the roster files |
| `QuiRameneRoute` | `app/api/qui-ramene/route.ts`: the list's GET, POST, PATCH and DELETE handlers and the admin check |
| `Messages` | `lib/messages.ts`: the message wall file, newest first, capped at 200 |
| `MessagesRoute` | `app/api/messages/route.ts`: the 8-second cooldown, the cleaned name and text, posting |
| `Rsvp` | `app/api/rsvp/route.ts`: `cleanStr`, the guard chain and the created row |
| `SpotifyQueue` | `app/api/spotify/queue/route.ts`: the track id and the duplicate check before enqueueing |
| `Middleware` | `middleware.ts`: the access gate and the redirect to the login page |
| `LoginRoute` | `app/api/login/route.ts`: the password check and the issued cookie |
| `LoginClient` | `app/login/LoginClient.tsx`: the `from` target and the submit state |
| `Dashboard` | `app/dashboard/page.tsx`: time formatting, the playback clock, the overlay trigger, the slot spin and its rows |
| `Countdown` | `app/client-countdown.tsx`: days, hours, minutes and seconds left |
| `MessagesPage` | `app/messages/page.tsx`: relative times and the send guard |

Four helper modules state the JavaScript semantics the code relies on:

- `Wrappers` holds `Option`.
- `JsText` holds `trim`, `split`, `slice`, `startsWith`, `padStart` and `String(n)` for integers.
- `Js` holds JSON values with `undefined`, truthiness, `||`, `??` and `?.`, plus `String(v)`, `Number(v)` and request headers.
- `Arith` holds the uniqueness of integer quotient and remainder.

State is modelled in two ways:

- **Files.** A file the server reads and rewrites is a field of a store class, holding the file as a value. The methods name the fields they change and state the new contents.
- **Module-level `Map`s.** A per-address cooldown map is a `map` field of a route class.

Client-side React state (the dashboard's playback clock and overlay, the login form) is
a class as well. Polls, ticks and submits are method calls.

The clock, random ids, `Math.random`, the Spotify calls and file contents are
parameters. Each handler reads the clock once.

## Model

| member | source | states |
|---|---|---|
| Roulette.MergeFillsDefaults | soiree-2401/lib/roulette.ts:16-35 | a property missing from the file takes the value `DEFAULT` holds at that moment, so a missing `participants` is `DEFAULT`'s own array with whatever earlier joins pushed into it; a present property is kept; an empty object reads as `DEFAULT` |
| Roulette.ReadAfterWrite | soiree-2401/lib/roulette.ts:26-41 | a record written by `writeRoulette` is read back unchanged |
| Roulette.ReadStable | soiree-2401/lib/roulette.ts:26-36 | after a read, reading again gives the same record and writes nothing |
| Roulette.JoinNoChange | soiree-2401/lib/roulette.ts:43-53 | a join leaves the record unchanged exactly when the trimmed name is blank or already listed |
| Roulette.JoinAppends | soiree-2401/lib/roulette.ts:48-49 | a new name is appended at the end; earlier names and the other fields stay |
| Roulette.JoinMember | soiree-2401/lib/roulette.ts:45-49 | after a non-blank join the trimmed name is listed, exactly once if it was absent |
| Roulette.JoinIdempotent | soiree-2401/lib/roulette.ts:43-53 | joining twice with one name equals joining once |
| Roulette.JoinKeepsClean | soiree-2401/lib/roulette.ts:45-49 | joining keeps the list free of duplicates and of empty or untrimmed names |
| Roulette.JoinGrowsDefault | soiree-2401/lib/roulette.ts:26-53 | a new name joined into a record that holds `DEFAULT.participants` (after a recovery, or from a file without `participants`) is appended to `DEFAULT` too; any other join leaves `DEFAULT` as it was |
| Roulette.DefaultLeaksJoin | soiree-2401/lib/roulette.ts:26-53 | with no roulette file, "Alice" joins; when the file is lost again, the recovery writes and returns Alice, and the next spin shows her on the wheel |
| Roulette.FreshRecoveryIsDefault | soiree-2401/lib/roulette.ts:16-35 | with a fresh copy of `DEFAULT` per read, a lost file always recovers to the empty record and its spin shows nobody, while each join gives the record and file it gives as written |
| Roulette.JoinPersists | soiree-2401/lib/roulette.ts:43-53 | the next read sees the joined list; a readable file is not rewritten for a blank or known name |
| Roulette.SpinSnapshot | soiree-2401/lib/roulette.ts:73-87 | a spin copies the list to `lastParticipants`, stamps the time and empties the list |
| Roulette.SpinTwice | soiree-2401/lib/roulette.ts:77-83 | a second spin with no join in between shows an empty wheel |
| Roulette.JoinAfterSpin | soiree-2401/lib/roulette.ts:43-53 | the first join after a spin starts a round with that name alone and keeps the snapshot |
| Roulette.CleanLines | soiree-2401/lib/roulette.ts:60-61 | the trimmed non-blank lines: no more than the input, all clean |
| Roulette.Presents | soiree-2401/lib/roulette.ts:55-65 | the names are clean and without line breaks; an unreadable file gives none |
| Roulette.CleanLinesOfClean | soiree-2401/lib/roulette.ts:60-61 | lines that are already clean pass through unchanged |
| Roulette.PresentsRoundTrip | soiree-2401/lib/roulette.ts:57-61 | a file of clean names, one per line, reads back as exactly those names |
| Roulette.RouletteStore.constructor | soiree-2401/lib/roulette.ts:13-20 | the store starts on the given file with no writes, and `DEFAULT.participants` empty as declared |
| Roulette.RouletteStore.Read | soiree-2401/lib/roulette.ts:26-36 | returns the merged record; an unreadable file is rewritten with `DEFAULT` as it stands, counted as one write; `DEFAULT` is not changed |
| Roulette.RouletteStore.Write | soiree-2401/lib/roulette.ts:38-41 | the file holds the encoded record, with one write more |
| Roulette.RouletteStore.AddParticipant | soiree-2401/lib/roulette.ts:43-53 | returns the joined record; the file and write count are as `Join` says; the `push` also grows `DEFAULT.participants` when the record read holds that array |
| Roulette.RouletteStore.Spin | soiree-2401/lib/roulette.ts:73-87 | returns the spun record and always writes it; its new arrays leave `DEFAULT` alone |
| RouletteJoin.ClientIpFirstForwarded | soiree-2401/app/api/roulette/join/route.ts:7-9 | a proxy chain is attributed to its first entry, trimmed |
| RouletteJoin.ClientIpSingleForwarded | soiree-2401/app/api/roulette/join/route.ts:8-9 | a single forwarded address is used trimmed, whatever `x-real-ip` says |
| RouletteJoin.ClientIpFallback | soiree-2401/app/api/roulette/join/route.ts:10 | without forwarding, `x-real-ip` (untrimmed) is used, else "unknown" |
| RouletteJoin.CooldownAfterAccept | soiree-2401/app/api/roulette/join/route.ts:17-22 | after a request is let through at `now`, the address is refused exactly until `now + 4000` |
| RouletteJoin.CooldownPerAddress | soiree-2401/app/api/roulette/join/route.ts:17-22 | letting one address through leaves every other address's cooldown unchanged |
| RouletteJoin.RequestedNameOfString | soiree-2401/app/api/roulette/join/route.ts:24-25 | a string name is used trimmed |
| RouletteJoin.RequestedNameMissing | soiree-2401/app/api/roulette/join/route.ts:24-25 | a body that is not JSON, or a missing or falsy name, asks for the empty name |
| RouletteJoin.JoinRoute.constructor | soiree-2401/app/api/roulette/join/route.ts:5 | the route starts with an empty address memory |
| RouletteJoin.JoinRoute.Post | soiree-2401/app/api/roulette/join/route.ts:13-36 | a request in the cooldown is refused with nothing changed; otherwise the address is stamped before the name is checked, and a non-blank name is joined, the file, write count and `DEFAULT` changing as `addParticipant` changes them |
| QuiRameneStore.CategoryNameRoundTrip | soiree-2401/lib/quiRameneStore.ts:27 | the category names and `CategoryOf` are inverse to each other |
| QuiRameneStore.CategoryNameClean | soiree-2401/lib/quiRameneStore.ts:27 | every category name is non-empty and trimmed |
| QuiRameneStore.NormalizeCategorySpec | soiree-2401/lib/quiRameneStore.ts:29-32 | a category name, even with surrounding white space, is kept; anything else becomes Nourriture |
| QuiRameneStore.IsValidCategorySpec | soiree-2401/lib/quiRameneStore.ts:142-144 | exactly the four literal names are valid; surrounding white space makes a name invalid |
| QuiRameneStore.NormalizeItem | soiree-2401/lib/quiRameneStore.ts:67-72 | the normalised item has trimmed label and assignee; a missing id is replaced by the fresh one |
| QuiRameneStore.NormalizeItemIdempotent | soiree-2401/lib/quiRameneStore.ts:67-72 | the JSON of a normalised item normalises back to the same item |
| QuiRameneStore.ParseDataRejects | soiree-2401/lib/quiRameneStore.ts:59-65 | blank text, text that is not JSON and non-array `items` are rejected |
| QuiRameneStore.ParseDataUpdatedAt | soiree-2401/lib/quiRameneStore.ts:74-77 | `updatedAt` is kept exactly when it is a number, and otherwise replaced by the clock |
| QuiRameneStore.ParseDataOfWritten | soiree-2401/lib/quiRameneStore.ts:52-81 | whatever `writeData` writes parses again |
| QuiRameneStore.ParseDataRoundTrip | soiree-2401/lib/quiRameneStore.ts:52-81 | a record of normalised items reads back exactly as written |
| QuiRameneStore.DefaultDataShape | soiree-2401/lib/quiRameneStore.ts:34-44 | four unassigned, normalised items, one per category in order, stamped with the clock |
| QuiRameneStore.DefaultReadsBack | soiree-2401/lib/quiRameneStore.ts:34-57 | the default list, once written, reads back as itself |
| QuiRameneStore.ReadDataRecovery | soiree-2401/lib/quiRameneStore.ts:83-117 | a missing, unreadable or damaged file is replaced by the default list, a damaged one backed up first; a good file is left alone |
| QuiRameneStore.ReadDataStable | soiree-2401/lib/quiRameneStore.ts:108-117 | after `readData` the file parses, and a later request with its own clock and UUIDs reads the same list, when the file was recovered or every stored item has an id and `updatedAt` is a number |
| QuiRameneStore.ParseDataSettled | soiree-2401/lib/quiRameneStore.ts:60-81 | a text whose items all have ids and whose `updatedAt` is a number parses to the same record under any clock and UUIDs |
| QuiRameneStore.WrittenSettled | soiree-2401/lib/quiRameneStore.ts:52-57 | whatever `writeData` writes for items with ids is such a text |
| QuiRameneStore.IdlessItemRedrawn | soiree-2401/lib/quiRameneStore.ts:67-72 | an item stored without an id gets a new UUID on every read, so two requests see different ids for it |
| QuiRameneStore.BringStore.WriteData | soiree-2401/lib/quiRameneStore.ts:52-57 | the record is stamped with the clock and the file holds it |
| QuiRameneStore.BringStore.EnsureStorage | soiree-2401/lib/quiRameneStore.ts:83-106 | the file becomes `EnsuredFile`, and the damaged text is added to the backups |
| QuiRameneStore.BringStore.ReadData | soiree-2401/lib/quiRameneStore.ts:108-117 | returns `ReadResult` and leaves `ReadFileAfter` behind |
| QuiRameneStore.StripBom | soiree-2401/lib/quiRameneStore.ts:125 | one leading byte-order mark is removed and nothing else |
| QuiRameneStore.Entries | soiree-2401/lib/quiRameneStore.ts:130-131 | never more names than pieces, and every name a clean entry: non-empty, trimmed, not a `#` comment, without separators |
| QuiRameneStore.EntriesOne | soiree-2401/lib/quiRameneStore.ts:130-131 | one piece yields its trimmed text exactly when that is non-empty and not a `#` comment, and nothing otherwise |
| QuiRameneStore.EntriesConcat | soiree-2401/lib/quiRameneStore.ts:130-131 | pieces are filtered one by one, so the survivors keep their order |
| QuiRameneStore.EntriesOfEntries | soiree-2401/lib/quiRameneStore.ts:130-131 | clean entries pass through unchanged |
| QuiRameneStore.RosterRoundTrip | soiree-2401/lib/quiRameneStore.ts:125-131 | a `presents.txt` holding one clean entry per line reads back as exactly those entries |
| QuiRameneStore.FirstNonEmptySpec | soiree-2401/lib/quiRameneStore.ts:119-140 | the answer is the first non-empty roster, and it is empty exactly when every roster is |
| QuiRameneStore.FirstRosterSpec | soiree-2401/lib/quiRameneStore.ts:119-140 | the first candidate file with some entry decides; an unreadable file is skipped |
| QuiRameneStore.ReadPresentPeople | soiree-2401/lib/quiRameneStore.ts:119-140 | the loop with early return gives `FirstRoster` of the candidates |
| QuiRameneRoute.IsAdminSpec | soiree-2401/app/api/qui-ramene/route.ts:6-9 | admin rights need a configured, non-empty code sent back exactly |
| QuiRameneRoute.PostedCategoryArray | soiree-2401/app/api/qui-ramene/route.ts:24 | the as-written category choice stores the array `["Softs"]`, which names no category |
| QuiRameneRoute.PostedCategory | soiree-2401/app/api/qui-ramene/route.ts:24 | the stored category is the one a valid value names, else Nourriture; it agrees with the code on every string |
| QuiRameneRoute.PrependedSpec | soiree-2401/app/api/qui-ramene/route.ts:27-32 | POST adds exactly one unassigned item, first, and keeps the others in order |
| QuiRameneRoute.FindIndex | soiree-2401/app/api/qui-ramene/route.ts:45 | the index of the first item with the id, and none when no item has it |
| QuiRameneRoute.PatchAssignOnly | soiree-2401/app/api/qui-ramene/route.ts:48-49 | taking or releasing an item is open to anyone and changes only `assignedTo` |
| QuiRameneRoute.PatchNeedsAdmin | soiree-2401/app/api/qui-ramene/route.ts:52-56 | a label or category edit without admin rights is refused |
| QuiRameneRoute.PatchInvalidCategoryKept | soiree-2401/app/api/qui-ramene/route.ts:58-59 | an admin's invalid category is ignored while the label in the same request applies |
| QuiRameneRoute.PatchValidCategory | soiree-2401/app/api/qui-ramene/route.ts:59 | an admin's valid category replaces the old one |
| QuiRameneRoute.PatchKeepsShape | soiree-2401/app/api/qui-ramene/route.ts:48-60 | an edit never changes the id and keeps a normalised item normalised |
| QuiRameneRoute.RemoveId | soiree-2401/app/api/qui-ramene/route.ts:75 | no item with the id survives; every survivor was in the list; the list does not grow |
| QuiRameneRoute.RemoveIdKeepsOthers | soiree-2401/app/api/qui-ramene/route.ts:75 | every item with another id survives |
| QuiRameneRoute.RemoveIdConcat | soiree-2401/app/api/qui-ramene/route.ts:75 | deletion works piecewise, so survivors keep their relative order |
| QuiRameneRoute.RemoveIdAbsent | soiree-2401/app/api/qui-ramene/route.ts:75 | deleting an id nobody has changes nothing |
| QuiRameneRoute.GetAll | soiree-2401/app/api/qui-ramene/route.ts:11-15 | replies with `readData`'s list and the roster |
| QuiRameneRoute.Post | soiree-2401/app/api/qui-ramene/route.ts:17-37 | a blank label is refused with 400 before the list is read; otherwise the new item is saved in front, with the category `PostedCategory` gives: the corrected choice of the Findings table, where route.ts:24 stores the raw value |
| QuiRameneRoute.Patch | soiree-2401/app/api/qui-ramene/route.ts:39-65 | 400 without an id, 404 for an unknown id, 403 for a non-admin edit; otherwise the edited item is saved |
| QuiRameneRoute.Delete | soiree-2401/app/api/qui-ramene/route.ts:67-80 | 400 without an id, 403 without admin rights, before the list is read; otherwise every item with the id is removed |
| Messages.ReadListSpec | soiree-2401/lib/messages.ts:23-32 | nothing unless the file holds a JSON array, which is returned whole |
| Messages.PrependSpec | soiree-2401/lib/messages.ts:36-37 | the new message comes first, then the older ones in order, at most 200 in all |
| Messages.PrependBounded | soiree-2401/lib/messages.ts:34-39 | however many messages are added, the wall never exceeds 200 |
| Messages.ReadAfterAdd | soiree-2401/lib/messages.ts:34-39 | reading after an add gives the capped list with the new message first |
| Messages.MessageStore.Read | soiree-2401/lib/messages.ts:14-32 | returns `ReadList`; a missing file is created holding `[]` |
| Messages.MessageStore.Add | soiree-2401/lib/messages.ts:34-39 | the file holds the capped list with the message first |
| MessagesRoute.ClientIpSpec | soiree-2401/app/api/messages/route.ts:12-13 | without a forwarded chain, `x-real-ip` is used trimmed, unlike the roulette |
| MessagesRoute.ClientIpForwarded | soiree-2401/app/api/messages/route.ts:10-11 | a forwarded chain or single address wins, as its first entry trimmed, whatever `x-real-ip` says |
| MessagesRoute.ClientIpUnknown | soiree-2401/app/api/messages/route.ts:14 | with neither header the address is "unknown" |
| MessagesRoute.WaitIsLeast | soiree-2401/app/api/messages/route.ts:28 | the hint is the least number of whole seconds after which the cooldown is over |
| MessagesRoute.WaitBounds | soiree-2401/app/api/messages/route.ts:27-28 | inside the cooldown the hint is 1 to 8 seconds |
| MessagesRoute.CleanName | soiree-2401/app/api/messages/route.ts:36 | a prefix of the trimmed name, of length min(its length, 24) |
| MessagesRoute.CleanText | soiree-2401/app/api/messages/route.ts:37 | a prefix of the trimmed text, of length min(its length, 240) |
| MessagesRoute.CleanTextEmptyIff | soiree-2401/app/api/messages/route.ts:37-41 | the cleaned text is empty exactly when the text was blank |
| MessagesRoute.ShownName | soiree-2401/app/api/messages/route.ts:45 | an empty name is shown as "Anonyme"; a non-empty name is kept |
| MessagesRoute.DecideCooldown | soiree-2401/app/api/messages/route.ts:26-33 | a post within 8 s of the address's last one gets a 1–8 s hint and stores nothing |
| MessagesRoute.DecideEmpty | soiree-2401/app/api/messages/route.ts:39-41 | outside the cooldown a blank text is refused and nothing is stored |
| MessagesRoute.DecideRejectedKeepsMemory | soiree-2401/app/api/messages/route.ts:22-58 | a message is stored exactly when the post succeeds, and a refused post starts no cooldown |
| MessagesRoute.DecidePosted | soiree-2401/app/api/messages/route.ts:43-53 | an accepted post stores the cleaned text and the cleaned name, "Anonyme" when that is empty, with the given id and the clock, and starts the address's cooldown |
| MessagesRoute.WallRoute.Post | soiree-2401/app/api/messages/route.ts:22-58 | the reply and memory are those of `Decide`; the wall changes only when a message is stored |
| MessagesRoute.WallRoute.List | soiree-2401/app/api/messages/route.ts:17-20 | the wall as `readMessages` returns it |
| Rsvp.FieldText | soiree-2401/app/api/rsvp/route.ts:7 | the trimmed string form; empty for a missing or null field |
| Rsvp.CleanStr | soiree-2401/app/api/rsvp/route.ts:6-9 | at most `max` characters, a prefix of the trimmed text, the whole text when it fits |
| Rsvp.CleanStrOfClean | soiree-2401/app/api/rsvp/route.ts:6-9 | a trimmed string short enough comes out as it went in |
| Rsvp.CleanStrCuts | soiree-2401/app/api/rsvp/route.ts:8 | a text that is too long is cut to exactly `max` characters |
| Rsvp.Nullable | soiree-2401/app/api/rsvp/route.ts:32-33 | `null` exactly for the empty string |
| Rsvp.PostAccepts | soiree-2401/app/api/rsvp/route.ts:21-27 | an answer is created exactly when the name is there, the status is yes, maybe or no, and 1 to 6 guests come |
| Rsvp.PostNameFirst | soiree-2401/app/api/rsvp/route.ts:21 | a missing name is reported whatever else is wrong |
| Rsvp.PostStatusSecond | soiree-2401/app/api/rsvp/route.ts:22-24 | with a name, a bad status is reported before the guests are looked at |
| Rsvp.PostStatus | soiree-2401/app/api/rsvp/route.ts:11-43 | every request gets 200 or 400, and 200 exactly for a JSON body other than `null` with a name, a valid status and 1 to 6 guests |
| Rsvp.PostInvalidBody | soiree-2401/app/api/rsvp/route.ts:11-43 | a body that is not JSON, or is `null`, is an invalid request |
| Rsvp.PostRecord | soiree-2401/app/api/rsvp/route.ts:15-37 | the row holds the cleaned fields within their caps, with `null` for an empty phone or note |
| Rsvp.GuestsDefault | soiree-2401/app/api/rsvp/route.ts:19 | a missing guest count means one guest |
| Rsvp.GuestsRange | soiree-2401/app/api/rsvp/route.ts:25-27 | a numeric count is accepted exactly from 1 to 6 |
| Rsvp.GuestsFromString | soiree-2401/app/api/rsvp/route.ts:19 | a count sent as a decimal string is read as that number |
| Rsvp.StoredOne | soiree-2401/app/api/rsvp/route.ts:29-39 | only a created answer adds a row, exactly its own, at the end |
| SpotifyQueue.ExtractTrackId | soiree-2401/app/api/spotify/queue/route.ts:4-8 | an id exactly when splitting on `:` gives three pieces; then the third, which holds no `:` |
| SpotifyQueue.ExtractTrackOf | soiree-2401/app/api/spotify/queue/route.ts:4-8 | behind the track prefix, an id is found exactly when the rest holds no `:`, and it is that rest |
| SpotifyQueue.ExtraPieceRejected | soiree-2401/app/api/spotify/queue/route.ts:7 | `spotify:track:a:b` yields no id |
| SpotifyQueue.PostRejectsPrefix | soiree-2401/app/api/spotify/queue/route.ts:15-17 | a URI without the track prefix is refused with 400 before any call |
| SpotifyQueue.PostRejectsEmptyId | soiree-2401/app/api/spotify/queue/route.ts:19-22 | the bare prefix has an empty id and is refused before any call |
| SpotifyQueue.PostTrack | soiree-2401/app/api/spotify/queue/route.ts:13-22 | a well-formed track URI passes both checks and is looked up with its id |
| SpotifyQueue.LookupCalls | soiree-2401/app/api/spotify/queue/route.ts:26-49 | the queue is read first; the track is enqueued, by one call with its URI, exactly when the read succeeded and it is not a duplicate; otherwise a duplicate is reported |
| SpotifyQueue.PlayingNotQueuedAgain | soiree-2401/app/api/spotify/queue/route.ts:28-32 | the track playing now counts as a duplicate |
| SpotifyQueue.QueuedNotQueuedAgain | soiree-2401/app/api/spotify/queue/route.ts:29-32 | a track already in the queue counts as a duplicate |
| Middleware.CookieName | soiree-2401/middleware.ts:4 | `SITE_PASSWORD_COOKIE` when set and non-empty, else `soiree_auth` |
| Middleware.ExemptPasses | soiree-2401/middleware.ts:9-16 | exempt paths pass without any cookie |
| Middleware.LoginExactlyExempt | soiree-2401/middleware.ts:13 | `/login` is exempt, `/login/x` is not |
| Middleware.GateDecides | soiree-2401/middleware.ts:18-24 | a guarded page passes exactly when the cookie reads "1"; otherwise it redirects to `/login` with `from` set and the other parameters kept |
| Middleware.RedirectTargetPasses | soiree-2401/middleware.ts:9-24 | the redirect target is itself let through |
| LoginRoute.NoPasswordNoLogin | soiree-2401/app/api/login/route.ts:6-11 | with no password configured nothing logs in |
| LoginRoute.LoginIff | soiree-2401/app/api/login/route.ts:4-11 | a login succeeds exactly when the submitted password equals the configured, non-empty one |
| LoginRoute.NullBodyCrashes | soiree-2401/app/api/login/route.ts:4 | a `null` body fails on its destructuring outside any catch: status 500 and no cookie |
| LoginRoute.NotJsonRefused | soiree-2401/app/api/login/route.ts:4 | a body that is not JSON stands for an empty password and is refused |
| LoginRoute.IssuedCookie | soiree-2401/app/api/login/route.ts:7-20 | the cookie is the gate's name, value "1", HTTP only, lax, secure in production, path "/", 30 days |
| LoginRoute.LoginOpensGate | soiree-2401/app/api/login/route.ts:13-20 | a browser holding the issued cookie passes the gate on every page |
| LoginClient.From | soiree-2401/app/login/LoginClient.tsx:10-15 | `/` when absent, empty or under `/login`; any other value unchanged; never under `/login` |
| LoginClient.ReturnsToRequestedPage | soiree-2401/app/login/LoginClient.tsx:10-15 | a visitor the gate turned away returns, after logging in, to the page asked for |
| LoginClient.LoginForm.constructor | soiree-2401/app/login/LoginClient.tsx:10-19 | the form starts empty, idle, without error, with a target outside `/login` |
| LoginClient.LoginForm.Submit | soiree-2401/app/login/LoginClient.tsx:21-33 | nothing happens while loading; otherwise the error is cleared, loading set and the password sent; the form still never targets `/login` |
| LoginClient.LoginForm.Settle | soiree-2401/app/login/LoginClient.tsx:35-53 | a failure shows the server's or network message, or the fallback; a success navigates to `from`; loading ends; the form never navigates under `/login` |
| Dashboard.SecondsField | soiree-2401/app/dashboard/page.tsx:47-48 | two digits whose value is the seconds modulo 60 |
| Dashboard.MsToMMSSReadsBack | soiree-2401/app/dashboard/page.tsx:44-49 | the text splits at its colon into minutes and a two-digit seconds field below 60 that together make the whole seconds |
| Dashboard.MsToMMSSNegative | soiree-2401/app/dashboard/page.tsx:45 | a negative time shows `0:00` |
| Dashboard.Clamp | soiree-2401/app/dashboard/page.tsx:51-53 | within `[a, b]`; the input itself when inside; the nearer bound otherwise |
| Dashboard.PickMsCamelFirst | soiree-2401/app/dashboard/page.tsx:57 | the camelCase field wins when it is present |
| Dashboard.PickMsSnakeFallback | soiree-2401/app/dashboard/page.tsx:57 | a missing or null camelCase field falls back to the snake_case one |
| Dashboard.PickMsNotFinite | soiree-2401/app/dashboard/page.tsx:58-59 | a value that is not a finite number counts as 0 |
| Dashboard.PickBool | soiree-2401/app/dashboard/page.tsx:61-65 | a boolean exactly when the first non-nullish field is one |
| Dashboard.PickBoolNoFallThrough | soiree-2401/app/dashboard/page.tsx:62-64 | a present camelCase field that is not a boolean hides the snake_case one |
| Dashboard.TrackKey | soiree-2401/app/dashboard/page.tsx:250-254 | none exactly when there is no current track; otherwise a truthy key |
| Dashboard.TrackKeyByName | soiree-2401/app/dashboard/page.tsx:253 | tracks without an id are told apart by name and artist |
| Dashboard.ReconcileNoTrack | soiree-2401/app/dashboard/page.tsx:263-269 | no current track: progress and duration 0, not playing, no remembered key |
| Dashboard.ReconcileNewTrack | soiree-2401/app/dashboard/page.tsx:277-281 | a new track: progress and duration are taken from the poll and the key remembered |
| Dashboard.ReconcileSameTrack | soiree-2401/app/dashboard/page.tsx:284-290 | the same track: the duration follows the poll; the progress is replaced exactly when it drifted more than 2500 ms; afterwards it is within 2500 ms of the poll |
| Dashboard.ReportedPlaying | soiree-2401/app/dashboard/page.tsx:273-274 | the player's boolean when it reports one, else the track's |
| Dashboard.ReconcilePlaying | soiree-2401/app/dashboard/page.tsx:273-275 | the playing flag takes the reported boolean, and stays as it was when none is reported |
| Dashboard.ReconcileIdempotent | soiree-2401/app/dashboard/page.tsx:262-291 | a second pass with the same poll changes nothing |
| Dashboard.TickBounded | soiree-2401/app/dashboard/page.tsx:299 | a tick stays in `[0, duration]`, adds a second unless that passes the end, and changes nothing else |
| Dashboard.TicksBounded | soiree-2401/app/dashboard/page.tsx:293-303 | however many ticks pass, the progress never decreases and never exceeds the duration |
| Dashboard.Playback.constructor | soiree-2401/app/dashboard/page.tsx:256-260 | no remembered key, progress and duration 0, playing |
| Dashboard.Playback.Poll | soiree-2401/app/dashboard/page.tsx:262-291 | the state after a poll is `Reconciled` of the state before |
| Dashboard.Playback.Tick | soiree-2401/app/dashboard/page.tsx:293-303 | a tick is `Ticked` when a track plays with a non-zero duration, and nothing otherwise |
| Dashboard.OnSpinSpec | soiree-2401/app/dashboard/page.tsx:228-246 | a spin starts only for a stamp newer than the remembered one and a non-empty pool; a newer stamp is remembered even with an empty pool; the pool is `lastParticipants` when non-empty, else `participants` |
| Dashboard.OnSpinOnce | soiree-2401/app/dashboard/page.tsx:233-235 | one stamp starts at most one spin |
| Dashboard.Overlay.Trigger | soiree-2401/app/dashboard/page.tsx:228-247 | the remembered stamp and pool are those of `OnSpin`; a started spin opens the overlay on the pool at index 0 with no final name; with no spin the overlay and slot are untouched; the running flag never changes |
| Dashboard.NextIndex | soiree-2401/app/dashboard/page.tsx:164 | stays in `[0, n)`: the next index, or 0 after the last |
| Dashboard.SpinIndexWraps | soiree-2401/app/dashboard/page.tsx:151-164 | after `t` steps from `start` the slot shows index `(start + t) mod n` |
| Dashboard.Overlay.StartSlotSpin | soiree-2401/app/dashboard/page.tsx:142-178 | an empty pool changes nothing; otherwise the slot ends on `SpinIndex` and the final name is the one at that index |
| Dashboard.FinalNameIsCentre | soiree-2401/app/dashboard/page.tsx:381-388 | the name picked is the one in the slot's centre row |
| Dashboard.JsRem | soiree-2401/app/dashboard/page.tsx:384 | JavaScript `%`: the remainder keeps the dividend's sign |
| Dashboard.RowIndexAsWrittenOffList | soiree-2401/app/dashboard/page.tsx:384 | with two names, index 0 and row −3, the code asks for index −1 |
| Dashboard.RowIndex | soiree-2401/app/dashboard/page.tsx:384 | the intended row index is always within the list |
| Dashboard.RowIndexNext | soiree-2401/app/dashboard/page.tsx:384-388 | each row shows the name one slot step after the row above it |
| Dashboard.RowIndexAgrees | soiree-2401/app/dashboard/page.tsx:384-388 | from three names on, the code's index equals the intended one and is in range |
| Dashboard.Rows | soiree-2401/app/dashboard/page.tsx:381-388 | seven rows, the centre one showing the current name |
| Countdown.Remaining | soiree-2401/app/client-countdown.tsx:14 | never negative; zero exactly when the event time is reached |
| Countdown.ShowRecomposes | soiree-2401/app/client-countdown.tsx:15-19 | days·86400 + hours·3600 + minutes·60 + seconds equals the whole seconds left |
| Countdown.ShowBounds | soiree-2401/app/client-countdown.tsx:16-19 | no field is negative; hours below 24, minutes and seconds below 60 |
| Countdown.ShowEnded | soiree-2401/app/client-countdown.tsx:21 | ended exactly when the event time is reached, and then every field is 0 |
| Countdown.SecondsLeftNonIncreasing | soiree-2401/app/client-countdown.tsx:14-15 | as the clock advances, the seconds left never grow |
| Countdown.TimeBoxSpec | soiree-2401/app/client-countdown.tsx:42 | at least two characters, ending with the whole decimal text; for a non-negative value, digits that read back as it |
| MessagesPage.TimeAgoJustNow | soiree-2401/app/messages/page.tsx:14-15 | under ten whole seconds, future times included, reads as "à l’instant" |
| MessagesPage.TimeAgoSeconds | soiree-2401/app/messages/page.tsx:16 | from 10 to 59 seconds the seconds are shown |
| MessagesPage.TimeAgoMinutes | soiree-2401/app/messages/page.tsx:17-18 | from one minute to an hour, the whole minutes (1 to 59) are shown |
| MessagesPage.TimeAgoHours | soiree-2401/app/messages/page.tsx:19-20 | from an hour on, the whole hours are shown, equal to the seconds divided by 3600 |
| MessagesPage.CannotSendBlank | soiree-2401/app/messages/page.tsx:30 | no send while one is in flight or the text is blank |
| MessagesPage.CanSendAgreesWithServer | soiree-2401/app/messages/page.tsx:30 | with no send in flight, the button is live exactly when the server would keep a non-empty text |

## Left out

- File I/O is left out. Files are values read and replaced whole. That covers `mkdir`, the temporary-file-and-rename write, encodings, `JSON.stringify` spacing and failed writes.
- Dashboard.TrackKey: keys are compared by value. The code compares them with `!==`, which for an object- or array-valued `id` compares references, so such a track would count as new on every poll. Spotify track ids are strings, and for strings the two comparisons agree.
- Concurrency is left out. Simultaneous requests and their read-modify-write races are not modelled; each handler runs alone.
- JavaScript numbers are integers here. Fractional guest counts and fractional milliseconds are not modelled; neither are NaN dates or `Infinity`.
- `Number` on strings accepts only an optional sign and decimal digits, after trimming white space as JavaScript does. Hexadecimal, exponents and decimals give NaN in this model.
- String lengths count characters, not UTF-16 code units. `slice(0, 24)` and similar cuts can differ on text outside the Basic Multilingual Plane.
- `trim` removes a fixed set of white-space characters. That set is listed in `JsText.IsSpace`.
- JSON values only. `String(v)` of an object is always `[object Object]` here. A parsed object can carry its own non-callable `toString` property, and then `String(v)` throws a TypeError; an own `valueOf` alone does not, because `toString` is tried first and the inherited one answers "[object Object]". Those throwing paths are not modelled: for example the RSVP route answers 400 "Requête invalide." to `{"name": {"toString": 1}, "status": "yes"}` from its catch, where `Rsvp.Post` creates a row named "[object Object]"; for the same name the join route would answer 500 from its catch, and the messages route status 200 with `{ ok: false, error: "Erreur serveur" }` from its own.
- `Roulette.StoredRoulette`: each property of `roulette.json` is either absent or holds a value of its declared type. A file where `participants` is `null`, not an array, or holds non-strings is not modelled: `spinRoulette` replaces a falsy list by `[]` (roulette.ts:77), and `addParticipant` throws on a `null` list (roulette.ts:48), which the join route answers with 500.
- The Prisma call in the RSVP route is only "a row is created". Database errors are not modelled.
- Spotify HTTP is left out. The queue read is an input, and the enqueue call is an entry in the list of calls. The error message shown when a call throws is not modelled.
- The middleware `config.matcher` is left out. It is framework routing applied before the gate runs.
- The catch-all branches of the join and messages routes are not modelled. Their 500 and "Erreur serveur" replies wrap file errors, which the file model does not produce.
- Random ids, UUIDs, `randomBytes` and `Math.random` are oracles given as parameters. Distinct draws being distinct values is not assumed.
- In `QuiRameneStore`, `ids` serves every UUID drawn during one request.
- `QuiRameneStore.ReadDataStable`: stability across requests is promised only for a recovered file or one whose items all have ids and whose `updatedAt` is a number. `readData` never writes a parseable file back, so an item without an id gets a new UUID and a non-numeric `updatedAt` a new stamp on every read (`IdlessItemRedrawn`). A PATCH naming the id from an earlier GET then gets 404.
- Each request reads the clock once. In the source, `writeData`, the backup name and `createdAt` read it again; here they see the same instant.
- React scheduling is reduced to method calls: `setInterval`, `setTimeout`, `requestAnimationFrame`, effects and memos. The 150 ms wait before the spin and the closing of the overlay after 6 s are not modelled.
- `Dashboard.Overlay.StartSlotSpin`: the eased frame interval is floating point, so the number of slot steps is a parameter rather than computed from 12 s of frames.
- The spin sound, locale time formatting, `encodeURIComponent` in the enqueue URL and `router.refresh` are left out.
- The login page's password field never changes in the model. No method models typing into it.
- `Dashboard.Overlay`: `localStorage` is the remembered stamp given to the constructor. An unparsable stored value is not modelled.
- The trivial `GET` of the messages route is modelled as `WallRoute.List`. The client-side refresh loop of the messages page, and the `load` and `send` requests, are left out.
- `Countdown.Show`: the event date is a number of milliseconds. Parsing the ISO date is left out.

## Findings

| source | as written | input that shows it | evidently intended | confidence | as-written member | corrected member |
|---|---|---|---|---|---|---|
| soiree-2401/app/api/qui-ramene/route.ts:24 | the category check looks at the string form of the posted value, but the raw value is then stored | POST `{ label: "x", category: ["Softs"] }` stores the one-element array `["Softs"]` as the item's category | store the category the value names, `"Softs"` | not executed | QuiRameneRoute.PostedCategoryArray | QuiRameneRoute.PostedCategory |
| soiree-2401/lib/roulette.ts:34 | `{ ...DEFAULT }` copies only the top level, so the recovered record holds `DEFAULT.participants` itself and the `push` at roulette.ts:49 grows the module's default | no roulette file; "Alice" joins; spin; the file is then lost or damaged: the recovery writes and returns `["Alice"]`, and the next spin puts Alice on the wheel | a recovery always starts from the declared empty record | not executed | Roulette.DefaultLeaksJoin | Roulette.FreshRecoveryIsDefault |
| soiree-2401/app/dashboard/page.tsx:384 | the slot row index is `(slotIndex + k + n) % n` with JavaScript's sign-keeping remainder | two names, index 0: the top row (k = −3) asks for index −1 and shows nothing | every row wraps around the list, whatever its size | not executed | Dashboard.RowIndexAsWrittenOffList | Dashboard.RowIndex |

The roulette store, `Roulette.RouletteStore`, keeps the shared `DEFAULT.participants` array as the code has it, because the join route's reply and the file it writes depend on it. `Roulette.ReadFresh` is the corrected read; on every join it gives the record the store gives while `DEFAULT` is still empty.
