# Vyne: client identity, live turns, the write-back store and scoring, in Dafny

Vyne is a consulting platform: a browser workspace shared by many clients' engagements, live voice
interviews, and a server that scopes what each consultant may see. This project models its stateful
algorithms and proves what they keep over whole runs.

- **Client identity** (`Client*.dfy`). One key/value map holds every client's data. The model resolves keys
  to owners, filters reads, merges scoped writes, renames and purges a client, and keeps client names the
  server's to write. A key is a parsed datatype (family, segment, rest); a value is a JSON object, an array
  of objects, or anything else; the four shared indexes are structured.
- **Live session** (`Live*.dfy`, `Handover*.dfy`, `Renewal*.dfy`, `CaptureRing`, `Playback*.dfy`). Turns, usage, the
  handover to a new connection, the renewal chain, the capture ring and the playback schedule, as machines over
  events and an explicit clock, with the objects whose methods take the machines' steps.
- **Browser engines** (`Store*.dfy`, `Json*.dfy`, `Pool`). The
  write-back store against a compare-and-set server, the salvage of truncated JSON, the bounded pool.
- **Scoring** (`Scoring*.dfy`). Weighted means, blends with earlier rounds, rounding, overall and bands, over
  exact reals.
- **Sets and rows** (`Findings*`, `Memory*`, `Subscriptions`, `AuthCache*`).

Each part has a specification in functions, loops and objects proved to compute it, and lemmas about it; the
modules called `...Meaning` say, in the data alone, what the functions of another module come to. A class's
`View()` is its specification state; fields marked `ghost`, and the fields called history, record what happened so
that it can be spoken about, and no decision reads them. `Options`, `Numbers` and
`Attributions` hold what several modules share. `dafny verify dfyconfig.toml` checks the project.

Where the code does not do what its comments say, the model follows the code and a lemma shows the case:

- A code is said never to be mistaken for a client whose norm looks like it; a norm is mistaken for a code that is
  its upper case, and a request may name that code (`ClientIsolation.AcmeReadsAsCode`, `LookedUpExactly`).
- A rename is said to be immune to a stale name held by a page; the caller's name still widens what is renamed
  (`ClientRenameProofs.StaleNameDropsAnothersEntry`, `NamedClientIsSwept`).
- Going back to an earlier name is meant never to be refused; an engagement known by its index entry alone can be
  forgotten in another's rename (`ClientRenameProofs.ForgottenCodeCannotGoBack`).
- A stop is said to bank whatever the turn had accrued; stopped from inside the frame that ends the turn, it
  misses that frame's usage (`LiveTurn.LastTurnIsLeftOut`).
- The handover's poll is said to be armed on every deferral; a goAway that lands in a pause arms none
  (`Handover.PausedGoAwayIsForgotten`).
- The speech flag is said to be set the instant speech is heard; an utterance under way at the close never sets
  it (`Handover.SpokenOverTheCloseIsCut`, `SpeechDecides`).
- A conflict is said to come from another user; the store conflicts with itself, because a success does not
  bring the new version home (`StoreSettles.SecondSaveReadsOld`, `EveryLaterSaveConflicts`).
- The memory is said to keep the latest statement on a dimension; within one interview the first is kept
  (`Memory.LaterIsForgotten`, `KeptIsLatest`).
- Out-of-order webhooks are said to correct themselves; a checkout that overtakes its subscription hides the
  status (`Subscriptions.CheckoutHidesTheStatus`).
- A purge is said to remove the client everywhere; a code only the table knows is left, and roadmap partitions
  and index entries under an older norm (`ClientPurge.UnindexedCodeIsLeft`, `OlderPartitionStays`,
  `OlderIndexEntryStays`).

## Model

| member | source | states |
|---|---|---|
| `ClientNames.Norm` | backend/src/auth/clients.ts:79-87 | A client's norm is lower-case letters and digits only, at most 100 of them. |
| `ClientNames.LetterByLetter` | backend/src/auth/clients.ts:79-87 | Of each character a name keeps a letter, in lower case, or a digit, and nothing else. |
| `ClientNames.NameIsItsLetters` | backend/src/auth/clients.ts:79-87 | A name is taken character by character. |
| `ClientNames.LegacyNorm` | backend/src/auth/clients.ts:89-92 | The older 30-character norm is a norm and a prefix of the current one. |
| `ClientNames.NormFixed` | backend/src/auth/clients.ts:84-87 | A norm is its own norm, so names and norms can be compared by normalising both. |
| `ClientScope.MapsAreOwners` | backend/src/auth/clients.ts:345-405 | For every code and session, the maps hold exactly the owner that the engagements table, then the engagement's own record, then the last index entry give it, and nothing where none of them does. |
| `ClientLoops.BuildWorkspaceMaps` | backend/src/auth/clients.ts:345-405 | The loops over table, index, records and sessions produce those maps. |
| `ClientLoops.FilterWorkspaceState` | backend/src/auth/clients.ts:506-565 | The filtering loops produce the filtered workspace of the specification, all four shared keys included. |
| `ClientLoops.FilterIndex` | backend/src/auth/clients.ts:506-565 | The entries kept are those whose client is allowed, in their order. |
| `ClientLoops.FilterVisible` | backend/src/auth/clients.ts:412-503 | The keys kept are those that resolve to the firm or to an allowed client. |
| `ClientLoops.AcceptIndexEntry` | backend/src/auth/clients.ts:944-981 | An incoming index entry is taken only for an allowed client and an allowed owner of its code; a refused binding leaves the server's own entry. |
| `ClientLoops.MergeEngagementIndex` | backend/src/auth/clients.ts:849-985 | The merged index: the entries of clients not allowed, then what the incoming entries contribute. |
| `ClientLoops.FilterDeletes` | backend/src/auth/clients.ts:989-995 | The deletes let through are those of keys that resolve to an allowed client or the firm. |
| `ClientLoops.ScopeWorkspaceWrite` | backend/src/auth/clients.ts:772-996 | The loops of the scoped write produce the change of the specification: all four shared keys, the other keys and the deletes. |
| `ClientLoops.MergeCodes` | backend/src/auth/clients.ts:937-983 | The merged code index: the server's entries of other clients, then the caller's own over them. |
| `ClientLoops.MergeRoadmapEntries` | backend/src/auth/clients.ts:793-813 | The merged roadmap index, where no preserved entry of the server's is overwritten. |
| `ClientIndexLoops.AddCodes` | backend/src/auth/clients.ts:528-539 | The entries of the code index that pass go in over what is there. |
| `ClientIndexLoops.AddMissingMeta` | backend/src/auth/clients.ts:540-553 | The entries of the roadmap index that pass go in where there is none yet. |
| `ClientIndexLoops.AddPartition` | backend/src/auth/clients.ts:587-595 | The roadmap partitions that pass go in over what is there. |
| `ClientIndexLoops.FilterRoadmapState` | backend/src/auth/clients.ts:580-598 | The loop over the four families filters each, and drops the flat slots. |
| `ClientIndexLoops.MergeRoadmapState` | backend/src/auth/clients.ts:814-848 | The loop over the four families merges each, and keeps the server's flat slots. |
| `ClientLens.WriteBackIsIdentity` | backend/src/auth/clients.ts:506-996 | Get-put: a restricted caller who writes back exactly what was read changes no key, neither code-keyed index, no index entry, and the roadmap only by naming its absent families. |
| `ClientLens.WriteBackIsExact` | backend/src/auth/clients.ts:831-848 | The roadmap is untouched by a write-back exactly when none of its families was absent. |
| `ClientLens.WriteBackKeepsOwner` | backend/src/auth/clients.ts:345-405 | A write-back keeps the owner of a code exactly when the index does not give the code to another client last and to one of the caller's before. |
| `ClientLens.ContestedCodeMoves` | backend/src/auth/clients.ts:937-985 | A workspace in which a write-back of unchanged data moves a code to the caller's client. |
| `ClientLens.FilterIsIdempotent` | backend/src/auth/clients.ts:506-565 | Filtering what was filtered for the same caller changes nothing exactly when no key is shown only because an index entry, itself not shown, binds its code to everybody. |
| `ClientVisibility.ExactlyTheAllowedIsShown` | backend/src/auth/clients.ts:506-598 | Of what is addressed to a client, by its norm or by a code with a row in the table, a restricted caller is shown all index entries, indexes and roadmap partitions as they are if the client is allowed, and none if it is not; and the same of all keys, if a row stands for the code that the norm reads as or the workspace names nobody for it. |
| `ClientVisibility.GlobalBriefingIsShown` | backend/src/auth/clients.ts:422-427 | A last briefing that names its norm is shown exactly to those allowed that norm, or to everybody if it says so. |
| `ClientVisibility.SessionsShown` | backend/src/auth/clients.ts:506-565 | A stored session is shown, value for value, exactly when the client it names is allowed. |
| `ClientVisibility.OwnWritesLand` | backend/src/auth/clients.ts:986-995 | A restricted caller's write to a key of an allowed client lands as it was sent, set, removed, or left alone, exactly unless the code that the key's segment reads as is somebody else's; which it is not, if a row stands for that code or nobody is named for it. |
| `ClientVisibility.OwnWritesAreRead` | backend/src/auth/clients.ts:506-996 | Put-get: under that guard the write is read back as sent; in any case what is stored is read, unless its code is then somebody else's. |
| `ClientPutGet.PartitionAfter` | backend/src/auth/clients.ts:814-848 | After a scoped write a roadmap partition is exactly what the request has there, present or absent, if it is of a code bound to a client of the caller's or of such a client by name, and what it was if not. |
| `ClientPutGet.RoadmapRestAfter` | backend/src/auth/clients.ts:814-848 | The flat slots stay the server's, and the time saved is the request's if it has one. |
| `ClientPutGet.CodeIndexAfter` | backend/src/auth/clients.ts:937-983 | An entry of the code index is the one sent if that is the caller's by its code or its session, else the one there if that is not the caller's, else none. |
| `ClientPutGet.RoadmapIndexAfter` | backend/src/auth/clients.ts:793-813 | In the roadmap index an entry that is not the caller's stays, and where there is none the one sent goes in if it is the caller's. |
| `ClientPutGet.EntriesAfter` | backend/src/auth/clients.ts:849-935 | Under an allowed norm the engagement index has the one entry sent, if its code is bound to the caller's, else the server's own, and none if none is sent. |
| `ClientPutGet.SharedWritesAreRead` | backend/src/auth/clients.ts:506-996 | Put-get for the four shared keys: all that is held for an allowed client in the index, the code index, the roadmap index and the roadmap is after a write what was sent, and is read back so. |
| `ClientPutGet.ClosedToAll` | backend/src/auth/clients.ts:417-421 | An owners-only key, and a key of the unassigned segment, is in nothing a restricted caller is shown, and no write of such a caller touches it. |
| `ClientPutGet.RunKeepsClosed` | backend/src/auth/clients.ts:412-503 | It keeps its value or its absence over every run of restricted writes. |
| `ClientPutGet.GlobalIsOpen` | backend/src/auth/clients.ts:412-503 | A key of the whole firm is shown to everybody as it is, and a write to it lands. |
| `ClientPutGet.ValueDecides` | backend/src/auth/clients.ts:412-503 | The snapshots and an unclassified key are shown, and written, exactly where the client the value names is allowed. |
| `ClientPutGet.BriefingDecides` | backend/src/auth/clients.ts:422-427 | The last briefing is shown, written and removed exactly as it names, by its norm or else by its client, one of the caller's, or everybody. |
| `ClientPutGet.NobodyIsGrantedNothing` | backend/src/auth/clients.ts:116-119 | To be allowed no name, or the word for an unknown client, grants no entry and no key but the firm's. |
| `ClientIsolation.RowDecides` | backend/src/auth/clients.ts:345-405 | A code with a row in the engagements table resolves to its row whatever a request claims, and a stored session to its stored client. |
| `ClientIsolation.LookedUpExactly` | backend/src/auth/clients.ts:433-490 | Every segment is looked up among the codes first. Whom a scoped write lets at such a key, and whom a read shows it to, is exactly whom the binding of that code lets, the server's or else the request's own; where the segment itself is not the caller's, nothing else does. |
| `ClientIsolation.AddressedUntouched` | backend/src/auth/clients.ts:772-996 | One scoped write leaves a key addressed to a client outside the caller's set as it was, exactly unless its segment reads as a code, without a row, that the server or the request gives to the caller's clients or to everybody. |
| `ClientIsolation.NamedNormIsReached` | backend/src/auth/clients.ts:783-787 | A request whose record gives the code that a client's norm reads as, and that nobody owns, to a client of the caller's writes what is stored under the norm, and the stored record then shows all of it. |
| `ClientIsolation.AcmeReadsAsCode` | backend/src/auth/clients.ts:433-447 | The input: a caller for beta reaches what is stored for acme through a code ACME. |
| `ClientIsolation.OrdinaryCodeIsNoNorms` | backend/src/auth/clients.ts:433-447 | Where every code that is named has a row or a character no norm has, nobody is named for the code that a norm reads as. |
| `ClientIsolation.RunKeepsHoldings` | backend/src/auth/clients.ts:772-996 | Isolation over every run of scoped writes: index entries, code index, roadmap index and roadmap partitions of a client none of the callers is allowed are the same at the end; and its keys too, if a row stands for the code that its norm reads as or neither the workspace nor any request names anybody for it. |
| `ClientIsolation.RunKeepsRowed` | backend/src/auth/clients.ts:772-996 | Keys addressed to such a client by a code with a row, or after `client_`, are the same at the end whatever codes are named. |
| `ClientIsolation.RunKeepsSessions` | backend/src/auth/clients.ts:345-405 | Every session such a client holds is there, value for value, after the run. |
| `ClientIsolation.SessionChangesHands` | backend/src/auth/clients.ts:412-503 | A session comes to be held by a client outside the caller's set exactly when a caller who may see its present client overwrites it with a value naming that other client. |
| `ClientRename.Least` | backend/src/auth/clients.ts:1469-1474 | A non-empty set of norms has a least one, so the surviving copy does not depend on key order. |
| `ClientCollisions.RefusedExactly` | backend/src/auth/clients.ts:1641-1880 | A rename is refused for exactly these reasons, each in its turn, stated on the request and the tables: no name, an unknown code, nobody found, a name that is held, nothing to rename; else it is planned, for the norms found. |
| `ClientCollisions.HeldIsRefused` | backend/src/auth/clients.ts:1700-1756 | A rename onto a norm outside those found is refused for a collision exactly where the last index entry under it has a code, or a row of either table has that norm, or somebody is assigned it. |
| `ClientCollisions.HeldIsKept` | backend/src/routes/assignments.ts:545-640 | Over any run of renames none of which is about a live client, whatever names they are to, its entries, rows and assignments are at the end exactly what they were, and nobody else's have come under its norm. |
| `ClientCollisions.AnothersNameIsRefused` | backend/src/auth/clients.ts:1700-1756 | The input: a rename by code alone onto the name of another client is refused. |
| `ClientRenameProofs.NoStaleKey` | backend/src/auth/clients.ts:1456-1511 | After a rename a plain family key is addressed by an old norm exactly when its segment reads as a known code, or as the engagement's own code and the name is written into it. |
| `ClientRenameProofs.NoneLeftAsCode` | backend/src/auth/clients.ts:1456-1463 | There is no such key where no old norm reads as a code that is known or the engagement's own. |
| `ClientRenameProofs.LeftKeyIsReported` | backend/src/auth/clients.ts:1797-1803 | Each such key is reported. |
| `ClientRenameProofs.NoStaleField` | backend/src/auth/clients.ts:1482-1511 | No family key the rename wrote, or its code addresses, carries an old name in any text field. |
| `ClientFields.OnlyNamesChange` | backend/src/auth/clients.ts:1399-1511 | Every value after a rename is an earlier one, its own or that of a key of ours that moved there, with the new name in each field that names us and every other field as it was. |
| `ClientFields.BriefingKeepsTheRest` | backend/src/auth/clients.ts:1583-1595 | In the last briefing a rename writes the client and its norm, exactly if it was one of ours, and nothing else. |
| `ClientFields.SnapshotsKeepTheRest` | backend/src/auth/clients.ts:1597-1612 | The snapshots stay as many and in order, and in each only a client name of ours is rewritten. |
| `ClientFields.RunKeepsTheRest` | backend/src/auth/clients.ts:1399-1511 | What a record stored under a code says besides names it says after any run of renames. |
| `ClientRenameMeaning.PreferredExactly` | backend/src/auth/clients.ts:1671-1699 | The preferred copy is that of the first matching row of the engagements table; where none matches, of the name given, then of the index and the record of the code. |
| `ClientRenameMeaning.SurvivorExactly` | backend/src/auth/clients.ts:1456-1481 | Of the copies that move to one place the preferred one survives, else the one already there, else the first by name. |
| `ClientRenameMeaning.DebrisIsReal` | backend/src/auth/clients.ts:1482-1511 | What is reported as given up was there, and is replaced by what comes to a place not ours or by another of our copies. |
| `ClientRenameMeaning.StayingExactly` | backend/src/auth/clients.ts:1497-1622 | A value that stays has the names written in exactly if the rename reaches it, by the code its segment reads as, by a session's client or by its own name. |
| `ClientRenameMeaning.BriefingOursExactly` | backend/src/auth/clients.ts:1583-1595 | The last briefing is ours by its norm, or by its client's name. |
| `ClientRenameMeaning.IndexExactly` | backend/src/auth/clients.ts:1514-1542 | The index after a rename, entry by entry: what is not ours stays, what is ours goes, and the code has the new norm. |
| `ClientRenameMeaning.RoadmapIndexExactly` | backend/src/auth/clients.ts:1543-1563 | The new name goes into the engagement's own roadmap entry and those that name one of the norms. |
| `ClientRenameMeaning.PartitionExactly` | backend/src/auth/clients.ts:1564-1582 | A partition of a norm that is given up moves to the new norm, the preferred one's first; every other stays, but the new norm's own where one moves there. |
| `ClientRenameMeaning.SharedAreRenamed` | backend/src/auth/clients.ts:1514-1582 | Of the shared keys a rename touches these three where they are there, and nothing else of them. |
| `ClientRenameProofs.NoStaleEntry` | backend/src/auth/clients.ts:1514-1542 | Every index entry left is under a norm that is not old, and the code's entry is under the new norm. |
| `ClientRenameProofs.CodeOwnerIsFresh` | backend/src/auth/clients.ts:345-405 | No code resolves to an old norm in the renamed workspace. |
| `ClientRenameProofs.ResidueIsEmpty` | backend/src/auth/clients.ts:1797-1865 | The scan after a rename comes out empty exactly when the last briefing is not an unreadable text, the snapshots name no old norm, no code of a changed index reads as an old name, and no key is left under an old norm that reads as a code. |
| `ClientRenameProofs.StrandedKeys` | backend/src/auth/clients.ts:1350-1375 | After a rename a family key resolves to an old norm exactly when it carries it after `client_` or `eng_`, and then it was there before, unchanged, or was left as a code's; a segment that is looked up only if nobody is named for its code any more. |
| `ClientRenameProofs.NothingLostSilently` | backend/src/auth/clients.ts:1456-1511 | Every key keeps its value, or its value is at the new norm, or the report names it, except exactly a copy at the new norm that gives way to a different value while that norm counts as ours, and a copy that moves there and gives way because the new norm reads as a code of ours. |
| `ClientRenameProofs.OwnCopyIsReplacedByCanonical` | backend/src/auth/clients.ts:1469-1496 | A copy of ours that gives way does so to the canonical name's. |
| `ClientRenameProofs.FreshNormLosesNothing` | backend/src/auth/clients.ts:1475-1511 | Onto a norm that was not owned a rename loses nothing without a report, exactly unless the norm reads as a code of ours. |
| `ClientRenameProofs.OthersUntouched` | backend/src/auth/clients.ts:1377-1622 | A key that resolves to a client not being renamed, and is no destination, keeps its value. |
| `ClientRenameProofs.RenameFrees` | backend/src/auth/clients.ts:1641-1880 | A rename leaves no entry, row or assignment under each norm it moves away from, and no key exactly unless one is left as a code's. |
| `ClientRenameProofs.UnheldStays` | backend/src/auth/clients.ts:1718-1778 | A norm that no entry, row or assignment holds stays so over any run of renames none of which is to it. |
| `ClientRenameProofs.FreeStaysFree` | backend/src/auth/clients.ts:1641-1880 | A norm nothing is under stays so over any run of renames none of which is to it. |
| `ClientRenameProofs.RenameBackIsFree` | backend/src/routes/assignments.ts:545-640 | After a rename away from a norm and any run of further renames none of which took the norm, going back is never refused for a collision, and is planned exactly when its target can still be reached: the code is known by a record or an entry and has a norm, or the name alone has something to rename. |
| `ClientRenameProofs.RenameBackIsPlanned` | backend/src/routes/assignments.ts:545-640 | An engagement whose record names its client can always go back, after any such run, whoever was renamed in it. |
| `ClientRenameProofs.CodeStaysKnown` | backend/src/auth/clients.ts:1514-1542 | An engagement is still known after a rename exactly when it has a record, is the renamed one and some entry is the rename's, or keeps an index entry the rename neither drops nor takes the place of. |
| `ClientRenameProofs.ForgottenCodeCannotGoBack` | backend/src/auth/clients.ts:1272-1340 | An engagement known by an index entry alone is forgotten when another engagement whose record names the same client is renamed; its own rename is then refused as unknown. |
| `ClientRenameProofs.AccessFollows` | backend/src/auth/clients.ts:1767-1770 | After a rename a user is assigned the new norm exactly when the user had it, or a norm assigned under one of the client's names, before. |
| `ClientRenameProofs.CodeIsStillFound` | backend/src/auth/clients.ts:1272-1340 | The renamed engagement is found again by its code, and owns its new norm. |
| `ClientRenameProofs.OneNormPerCode` | backend/src/auth/clients.ts:1514-1542 | The index holds no norm but the new one for the renamed code. |
| `ClientRenameProofs.NamedClientIsSwept` | backend/src/auth/clients.ts:1641-1700 | An index entry not under the new norm is dropped exactly when it is of the renamed code or its norm is among the names found: the caller's name, the code's norms, and the rows that match these. Whose entry it is does not count. |
| `ClientRenameProofs.NamedKeysAreSwept` | backend/src/auth/clients.ts:1641-1700 | A key addressed by a norm other than the new one leaves its place exactly when that norm is among the names found and the key is not left as a code's. |
| `ClientRenameProofs.StaleNameDropsAnothersEntry` | backend/src/auth/clients.ts:1641-1700 | The input: a rename by code with another client's name beside it drops the other client's entry, and its engagement is not found any more. |
| `ClientRenameProofs.RenameKeepsDistinct` | backend/src/auth/clients.ts:1514-1542 | A rename keeps each norm to one entry. |
| `ClientRenameProofs.OneEntryPerCode` | backend/src/auth/clients.ts:1514-1542 | So the renamed code has at most one entry. |
| `ClientLoops.CollectMoves` | backend/src/auth/clients.ts:1456-1467 | The loop groups the keys that move by destination, with all their rivals. |
| `ClientLoops.MoveTo` | backend/src/auth/clients.ts:1469-1496 | One destination: the winner's renamed value is set, the rivals deleted, the beaten copies and an unowned key in the way reported. |
| `ClientLoops.MoveAll` | backend/src/auth/clients.ts:1456-1496 | All destinations, in any order, give the moves, deletes and report of the specification. |
| `ClientLoops.RenameInPlace` | backend/src/auth/clients.ts:1502-1511 | The keys that stay are rewritten in place exactly where the specification rewrites them. |
| `ClientLoops.RenameOwnedKeys` | backend/src/auth/clients.ts:1377-1511 | The sets and deletes the loops build, applied, give the renamed keys, and the report is their debris. |
| `ClientIndexLoops.RenameIndex` | backend/src/auth/clients.ts:1514-1542 | The loops drop the entries of the rename and bind its new norm, in place where it has an entry. |
| `ClientIndexLoops.RenameRoadmapIndex` | backend/src/auth/clients.ts:1548-1561 | The loop writes the new name into exactly the entries of the rename. |
| `ClientIndexLoops.RenamePartition` | backend/src/auth/clients.ts:1563-1582 | The preferred of the owned partitions, or the first, takes the new name and all of them leave their old ones. |
| `ClientIndexLoops.RenameRoadmap` | backend/src/auth/clients.ts:1563-1582 | The loop over the four families does so in each. |
| `ClientLoops.RenameWorkspace` | backend/src/auth/clients.ts:1377-1622 | All the rename's loops together give the renamed workspace, shared keys included, and report its debris. |
| `ClientServerNames.NamesStayTheServers` | backend/src/auth/clients.ts:2129-2181 | Over every run of writes by owners and restricted callers, each known engagement keeps the name the table gives it, in its record and in the index, whatever stale copies are sent. |
| `ClientServerNames.EnforcedIsDistinct` | backend/src/auth/clients.ts:2159-2178 | Whatever index is sent, an enforced one has one entry for each norm. |
| `ClientServerNames.IndexStaysDistinct` | backend/src/auth/clients.ts:2129-2181 | Over every run of writes by owners and restricted callers the stored index keeps one entry for each norm. |
| `ClientScope.StepKeepsDistinct` | backend/src/auth/clients.ts:849-985 | A scoped write keeps each norm to one entry. |
| `ClientServerNames.ServedNamesAreCurrent` | backend/src/auth/clients.ts:2101-2120 | What is served carries the current names; a workspace is served unchanged exactly when its names are current; serving twice is serving once. |
| `ClientServerNames.LastCodeIsKept` | backend/src/auth/clients.ts:2159-2178 | An enforced index gives each norm the code of the last incoming entry that belongs under it. |
| `ClientServerNames.OneClientOneEntry` | backend/src/auth/clients.ts:2159-2178 | Two engagements of one client, indexed under different norms, are left with one entry: the earlier code is no longer indexed. |
| `ClientServerNames.RightIndexIsKept` | backend/src/auth/clients.ts:2159-2178 | An index whose names are current is left as it is. |
| `ClientServerNames.OnlyNamesAreTouched` | backend/src/auth/clients.ts:2129-2150 | No other field of a record, no other key and no record of an unknown code is touched. |
| `ClientWrites.OwnersWriteLands` | backend/src/auth/clients.ts:2129-2181 | An owner's write lands whole, names put right: each shared key and value sent is stored, each key to go is gone, all else is as it was. |
| `ClientWrites.WritesInTurn` | backend/src/auth/clients.ts:2129-2181 | Writes take effect in turn, the last on top. |
| `ClientWrites.RestrictedWritesKeep` | backend/src/auth/clients.ts:772-996 | A run of writes by restricted callers, names put right and scoped, leaves all the shared keys hold for a client none of them is allowed, and every key a row addresses to it, as they were. |
| `ClientServerNames.EnforceServerNames` | backend/src/auth/clients.ts:2129-2181 | The loop produces the enforced request and names exactly the records it changed. |
| `ClientServerNames.FixIndex` | backend/src/auth/clients.ts:2159-2178 | The index loop produces the enforced index, every entry under its current norm. |
| `ClientPurge.NothingIsLeft` | backend/src/auth/clients.ts:606-678 | After a purge and the deletion of the client's rows no engagement index entry names one of its norms, and no key resolves to one but exactly those under a norm that the workspace reads as another client's code and for which the table has an empty name; if the index lists the client under its current norm only and no code is one of its norms. |
| `ClientPurge.IndexesAreClear` | backend/src/auth/clients.ts:636-660 | Nor does any entry of the code index or the roadmap index. |
| `ClientPurge.OlderPartitionStays` | backend/src/auth/clients.ts:661-675 | Of the client's roadmap partitions exactly those under a norm other than the current one are left, as they were. |
| `ClientPurge.RoadmapIsClear` | backend/src/auth/clients.ts:661-675 | The roadmap is clear of the client exactly when it had no partition under an older norm. |
| `ClientPurge.OlderIndexEntryStays` | backend/src/auth/clients.ts:629-633 | The index keeps exactly the client's entries under other norms than the current one, and a code still resolves to the deleted client exactly when no row and no record that is left decides it and the last entry left for it is such an entry. |
| `ClientPurge.OthersKeepTheirKeys` | backend/src/auth/clients.ts:606-678 | Where names are the server's, a key that does not resolve to the purged client keeps its value, exactly unless it is under one of the client's norms and only the table knows that the norm reads as another's code. |
| `ClientPurge.SharedKeysLoseOnlyTheClients` | backend/src/auth/clients.ts:636-660 | The code index and the roadmap index lose exactly the entries of codes that the workspace gives to the client, and of codes given to nobody whose session or name is the client's; the rest is as it was. |
| `ClientPurge.RoadmapLosesOnlyTheClients` | backend/src/auth/clients.ts:661-675 | The roadmap loses exactly the partitions of such codes and of the client's norm; the rest, flat slots too, is as it was. |
| `ClientPurge.PurgeKeepsDistinct` | backend/src/auth/clients.ts:629-635 | A purge keeps each norm to one entry. |
| `ClientPurge.WithoutNormMembers` | backend/src/auth/clients.ts:629-635 | The index loses exactly the entries under the purged norm. |
| `ClientPurge.UnindexedCodeIsLeft` | backend/src/auth/clients.ts:620-624 | A key of the client whose segment reads as a code, and is none of its norms, is left behind exactly when neither a record nor the index says whose code it is, since the purge does not consult the table. |
| `ClientPurge.PurgeClientKeys` | backend/src/auth/clients.ts:606-678 | The loop deletes exactly the keys the specification drops and leaves its engagement index. |
| `ClientPurge.PurgeCodes` | backend/src/auth/clients.ts:636-647 | The loop leaves the code index of the specification. |
| `ClientPurge.PurgeMetas` | backend/src/auth/clients.ts:648-660 | The loop leaves the roadmap index of the specification. |
| `ClientPurge.PurgePartitions` | backend/src/auth/clients.ts:661-675 | The loop over the four families leaves the partitions of the specification. |
| `ClientPurge.PurgeWorkspace` | backend/src/auth/clients.ts:606-678 | All the purge's loops together leave the purged workspace, shared keys included. |
| `LiveTurn.FrameCloses` | frontend/vyne-live.js:1211-1431 | A frame closes a turn exactly when it completes one in which something was generated since the last close, or which came as text alone; the notice is settled before the frame is over. |
| `LiveTurn.StepCloses` | frontend/vyne-live.js:1537-1735 | One event closes at most one turn, and a frame without content never closes a turn that is spent. |
| `LiveTurn.RunSettles` | frontend/vyne-live.js:1537-1722 | Exactly once: after every event of every run, each closed turn was announced once or dropped by a pause and no notice is owed, also when callbacks stop the session. |
| `LiveTurn.QuietRunClosesOnce` | frontend/vyne-live.js:1567-1650 | Any number of completion, usage, resumption frames and timers closes a turn at most once between them. |
| `LiveTurn.SpentStays` | frontend/vyne-live.js:1567-1650 | Once a turn is closed no run of such frames and timers closes it again. |
| `LiveTurn.TrailingTextClosesAgain` | frontend/vyne-live.js:1567-1650 | A transcript fragment after the close makes a late completion close the turn a second time. |
| `LiveTurn.FloorIsReleased` | frontend/vyne-live.js:1651-1707 | In every run a closed turn leaves the agent at rest or with the idle transition due, and audio in a turn means the agent speaks with none due. |
| `LiveTurn.RunIsExact` | frontend/vyne-live.js:906-964 | Conservation of usage: every usage frame is in exactly one segment in order of arrival, and the total is the sum over closed segments of each one's maximum. |
| `LiveTurn.StopReportsAll` | frontend/vyne-live.js:2290-2315 | However and from wherever a session is stopped, it has then banked every usage frame it had received, in order, except exactly the usage of a frame that makes a busy agent idle at once, by completing a turn or by interrupting, when the application stops the session on hearing of that: the stop comes before that usage is looked at. |
| `LiveTurn.LastTurnIsLeftOut` | frontend/vyne-live.js:2290-2315 | A session stopped at the end of its only turn, by the frame that brings the turn's usage, banks nothing. |
| `LiveTurn.LeftOutForGood` | frontend/vyne-live.js:2528-2593 | After the stop nothing but another frame changes what is banked, so what was left out stays out. |
| `LiveSalvage.ArmedExactly` | frontend/vyne-live.js:1376-1389 | In every run the salvage timer is armed exactly if a frame has come whose generation is complete and whose turn is not, and since then no audio, no completed turn, no stop and no firing of it. |
| `LiveSalvage.UncompletedTurnIsSalvaged` | frontend/vyne-live.js:1177-1209 | From such a frame, through any run without audio, completion or stop, the timer closes exactly one turn of a busy agent with something generated, settles its notice, and leaves the agent idle or due to be. |
| `LiveSalvage.SpokenTurnIsSalvaged` | frontend/vyne-live.js:1376-1389 | The input: a spoken turn whose completion never comes is closed by the timer. |
| `LiveStops.EndsExactly` | frontend/vyne-live.js:1537-1551 | A session ends in an event exactly if a stop is called, or the application stops it when told that the model is at rest or that a turn is over. |
| `LiveStops.ToldUnlessPaused` | frontend/vyne-live.js:1537-1551 | The application is told of a turn's end exactly when one closes and the session is not paused; in a pause the notice is dropped. |
| `LiveStops.FiredIsDisarmed` | frontend/vyne-live.js:1376-1389 | A timer that has fired is no longer armed. |
| `LiveStops.CloseBanks` | frontend/vyne-live.js:1715-1722 | A turn that closes has its usage banked once, before that of its frame is recorded. |
| `LiveStops.PausedAsTold` | frontend/vyne-live.js:1537-1551 | A session is paused exactly as the last word on it says. |
| `LiveSession.Session.RecordTurnUsage` | frontend/vyne-live.js:947-956 | The turn's usage becomes the maximum with the new report. |
| `LiveSession.Session.BankTurnUsage` | frontend/vyne-live.js:1715-1722 | The turn's usage is added to the session once. |
| `LiveSession.Session.CancelTurnCompleteNotice` | frontend/vyne-live.js:1561-1565 | An owed notice is dropped, and counted as dropped. |
| `LiveSession.Session.DrainTurnCompleteNotice` | frontend/vyne-live.js:1537-1551 | An owed notice is given once, or dropped when muted, and a stop from inside the callback is taken. |
| `LiveSession.Session.StopSession` | frontend/vyne-live.js:2528-2593 | A stop settles the notice, disarms both timers and banks usage; a stop within a stop does nothing. |
| `LiveSession.Session.SetTurnState` | frontend/vyne-live.js:1724-1735 | The state changes once per change; a stop from the callback is taken. |
| `LiveSession.Session.CloseModelTurn` | frontend/vyne-live.js:1567-1707 | The close does to the object what the machine's close does, idle at once or deferred. |
| `LiveSession.Session.NoteModelActivity` | frontend/vyne-live.js:1211-1431 | A frame's content, then its completion flags, take the machine's step. |
| `LiveSession.Session.OnMessage` | frontend/vyne-live.js:2290-2371 | The frame handler takes the machine's frame step, paused or not. |
| `LiveSession.Session.TurnCloseTimerFires` | frontend/vyne-live.js:1376-1389 | The salvage timer closes a turn still in progress and delivers its notice. |
| `LiveSession.Session.IdleDeferTimerFires` | frontend/vyne-live.js:1670-1706 | The deferred idle transition delivers the notice. |
| `LiveSession.Drive` | frontend/vyne-live.js:1537-1722 | A whole run of events on the object ends in the machine's state, no notice owed, usage the sum over segments. |
| `Handover.DeadlineIsKept` | frontend/vyne-live-interview.js:1819-1999 | Whatever the speech pattern, a handover called for by a goAway with deadline D starts by D less 1500 ms plus one 300 ms poll (or a poll after the resume); this is kept all through a run exactly when no notice of it finds a live interview paused with no poll armed. |
| `Handover.ApplyKeeps` | frontend/vyne-live-interview.js:1811-1822 | One event keeps it exactly when it is not such a notice. |
| `Handover.RestIsTaken` | frontend/vyne-live-interview.js:1909-1941 | A pending handover has started, in every run in which the model rests and nobody speaks, four quiet seconds and one poll after the last loud frame, unless an answer had begun. |
| `Handover.HandoversAreDecent` | frontend/vyne-live-interview.js:1877-1941 | In every run: with more than 12 s in hand and a connection that answers, no handover starts in an answer begun after the question or once one was heard, none while the model speaks or thinks before the deadline, and a stalled one never mid-utterance. |
| `Handover.MomentsAreTaken` | frontend/vyne-live-interview.js:1877-1942 | A decision hands over exactly past the deadline, on a stalled reply, at a turn boundary with the model at rest, or in enough quiet with no answer to wait for; otherwise the poll is armed. |
| `Handover.StalledConnectionIsLeft` | frontend/vyne-live-interview.js:1893-1908 | A handover waiting on a turn transcribed and not answered has started five seconds and one poll later, or one second and one poll if its notice landed on that turn, whatever the model is said to be doing. |
| `HandoverStalls.WaitsExactly` | frontend/vyne-live.js:1144-1149 | In every run on one connection a reply is awaited exactly if words of the interviewee's have come that no frame of the model's and no resume has followed, and it is awaited since the first of them. |
| `HandoverStalls.UnansweredWordsAreLeft` | frontend/vyne-live-interview.js:1893-1900 | From the words themselves: with a handover pending, words followed by silence are left within five seconds and one poll. |
| `HandoverStalls.ConfirmedStallIsLeft` | frontend/vyne-live-interview.js:1893-1900 | If a notice follows the unanswered words, within one second and one poll. |
| `HandoverMoments.DecisionExactly` | frontend/vyne-live-interview.js:1819-1999 | A pending handover starts exactly when it is due, in the data and in milliseconds, with the record of what it started on; else nothing changes but that a poll is armed. |
| `HandoverMoments.TheseEventsDecide` | frontend/vyne-live-interview.js:845-854 | Notices of either kind and the model's falling idle are decided on at once, and no other event starts a handover. |
| `HandoverMoments.SpeechExactly` | frontend/vyne-live.js:1027-1070 | In every run on one connection somebody is taken to speak exactly if a loud frame has come and no quiet one since more than 1.2 seconds after it; the last time heard is that of the last loud frame. |
| `HandoverMoments.DeadlineExactly` | frontend/vyne-live.js:2224-2244 | In every run on one connection the deadline is that of the last notice, if that gave any time. |
| `HandoverMoments.ResumedExactly` | frontend/vyne-live-interview.js:1819-1828 | The resume that a late handover may be counted from is the end of the last pause. |
| `HandoverMoments.StatusFollows` | frontend/vyne-live-interview.js:1819-1828 | The turn's state and the pause are the last ones heard of, and the interview is over once a stop was called. |
| `HandoverMoments.LiveUntilItEnds` | frontend/vyne-live-interview.js:1364-1402 | A connection is live until its socket dies, a stop is called or a handover starts on it. |
| `HandoverMoments.EndsAreFinal` | frontend/vyne-live-interview.js:1819-1828 | After a stop no handover starts, and after the socket has died none until the next connection. |
| `Handover.PausedGoAwayArmsNothing` | frontend/vyne-live-interview.js:1811-1822 | A goAway that lands while paused arms no poll, and the resume does not either. |
| `Handover.PausedGoAwayIsForgotten` | frontend/vyne-live-interview.js:1811-1822 | Then no run of speech, frames and time starts a handover, past the deadline as well, until the model's turn ends or another notice comes. |
| `Handover.FlagIsSetByNewSpeech` | frontend/vyne-live.js:1027-1070 | In every run within a turn the speech flag is set exactly when some loud frame comes while no utterance is under way. |
| `Handover.SpeechDecides` | frontend/vyne-live-interview.js:1904-1941 | Whatever comes after the close of the model's turn, a decision in mid-utterance, with the model at rest and more than 12 s in hand, hands over exactly when no utterance has begun since; then the one under way was so at the close. |
| `Handover.SpokenOverTheCloseIsCut` | frontend/vyne-live.js:1031-1042 | Who was speaking when the model's turn closed counts as not having begun: the next goAway hands over mid-sentence, whatever the headroom, and records no cut-off. |
| `Handover.GoAwayDiesWithItsSocket` | frontend/vyne-live-interview.js:1387-1396 | After a new connection is attached no handover starts without a notice of its own. |
| `HandoverInterview.Connection.ObserveMicLevel` | frontend/vyne-live.js:1027-1070 | A microphone frame takes the machine's step: utterance start, end after a gap, last loud time. |
| `HandoverInterview.Connection.HearGoAway` | frontend/vyne-live.js:2224-2244 | The deadline is recorded as an absolute time, or as unknown. |
| `HandoverInterview.Interview.HasStalled` | frontend/vyne-live-interview.js:1893-1900 | True exactly when the reply counts as stalled. |
| `HandoverInterview.Interview.MustWait` | frontend/vyne-live-interview.js:1904-1941 | True exactly when the decision is to defer. |
| `HandoverInterview.Interview.GiveUp` | frontend/vyne-live-interview.js:1942-1998 | The handover: poll and notice cleared, what the next connection is told recorded, the session stopped. |
| `HandoverInterview.Interview.MaybeRenewOnGoAway` | frontend/vyne-live-interview.js:1819-1999 | The whole decision takes the machine's step. |
| `HandoverInterview.Interview.OnGoAway` | frontend/vyne-live-interview.js:845-854 | The notice is recorded against the unanswered turn and decided on at once. |
| `HandoverInterview.Interview.OpenSession` | frontend/vyne-live-interview.js:1364-1402 | A new connection drops the poll, the pending notice and its turn. |
| `HandoverInterview.Interview.PollFires` | frontend/vyne-live-interview.js:1810-1817 | The poll's tick clears itself or decides again. |
| `HandoverInterview.Interview.PassTime` | frontend/vyne-live-interview.js:1810-1817 | Time passes with every due tick taken. |
| `HandoverInterview.Conduct` | frontend/vyne-live-interview.js:1819-1999 | A whole interview on the objects ends in the machine's state, every handover decent and, if no notice was missed, on time. |
| `Renewal.RunIsBounded` | frontend/vyne-live-interview.js:1039-1079 | Over every run: at most 40 renewals, 280 replacements in all, seven per lapse less what an abandoned one left over, and at most 88 s of retry backoff after the first wait in a lapse that is not rate-limited. |
| `Renewal.ChainTerminates` | frontend/vyne-live-interview.js:1286-1351 | A chain is over within fourteen of its own events whatever else happens between them. |
| `Renewal.LapseIsRenewed` | frontend/vyne-live-interview.js:956-1086 | A lapse is bridged exactly when it is within the limits on renewals, length, quota and codec refusals: after the wait and the replacement the session is open again and the page has heard of the renewal and its success; else it stays shut and the page has heard of one end. |
| `RenewalMeaning.RecoversExactly` | frontend/vyne-live-interview.js:956-1066 | Those limits, in the data: a close by the server or one of seven other lapses, under three hours, forty renewals, five quota refusals and three codec refusals in a row, of an interview that goes on. |
| `RenewalMeaning.EndIsCounted` | frontend/vyne-live-interview.js:956-1066 | What an end counts towards, and whether the interview is over by it. |
| `RenewalMeaning.FirstWaitExactly` | frontend/vyne-live-interview.js:1039-1079 | A bridge is begun after the longest of what the end and the streak ask for, and at once where nothing does. |
| `RenewalMeaning.QuotaWaitDoubles` | frontend/vyne-live-interview.js:1015-1015 | A quota refusal is waited out for fifteen seconds, then twice as long each time, two minutes at most. |
| `RenewalMeaning.FailureExactly` | frontend/vyne-live-interview.js:1315-1351 | A failure by the network is tried again, six times in a row at most, while the interview goes on; any other ends it. |
| `RenewalMeaning.StopExactly` | frontend/vyne-live-interview.js:956-1000 | A stop closes the session, and the page hears its end unless a renewal is in flight. |
| `Renewal.OutageIsSurvived` | frontend/vyne-live-interview.js:1315-1340 | After as many transport failures as there are retries left, a success brings the session back and forgets the streak. |
| `Renewal.LongerOutageEnds` | frontend/vyne-live-interview.js:1341-1351 | One failure more ends the live path, and the page is told. |
| `Renewal.StoppedMintsNothing` | frontend/vyne-live-interview.js:1074-1081 | Once stopped, no run of events asks for another replacement or renews. |
| `Renewal.RenewalOwnsTheOutcome` | frontend/vyne-live-interview.js:956-979 | No run of session ends during a renewal reaches the page or stops the renewal. |
| `Renewal.EndsOnce` | frontend/vyne-live-interview.js:956-1360 | One failure, one ending: in every run the page is told of at most one ending for each session and renewal there was at first and each start since. |
| `Renewal.OneStartOneEnding` | frontend/vyne-live-interview.js:956-1360 | Of an interview the page hears at most as many endings as it was started, and once it has heard that many nothing is open or being renewed. |
| `Renewal.StopDuringMintLeavesASession` | frontend/vyne-live-interview.js:1082-1086 | A replacement that arrives after a stop is attached and announced all the same. |
| `Renewal.AbandonedStreakCounts` | frontend/vyne-live-interview.js:1286-1327 | A renewal abandoned in a pause keeps its streak: after the resume one transport failure ends the interview. |
| `RenewalInterview.Interview.SessionEnded` | frontend/vyne-live-interview.js:956-1360 | The end handler takes the machine's step: ignored in a renewal, quota and codec refusals counted, renewed or over. |
| `RenewalInterview.Interview.AttemptRenewal` | frontend/vyne-live-interview.js:1068-1081 | An attempt waits out the one computed backoff, or asks at once. |
| `RenewalInterview.Interview.BackoffOver` | frontend/vyne-live-interview.js:1074-1081 | After the wait: abandoned if stopped or paused, else a replacement is asked for. |
| `RenewalInterview.Interview.RenewalOk` | frontend/vyne-live-interview.js:1082-1086 | Success clears the streak and tells the page. |
| `RenewalInterview.Interview.RenewalFailed` | frontend/vyne-live-interview.js:1286-1351 | A transport failure is tried again while tries are left; anything else ends the live path. |
| `RenewalInterview.Conduct` | frontend/vyne-live-interview.js:956-1360 | A whole run on the object ends in the machine's state, within the bounds. |
| `CaptureRing.Capture.Put` | frontend/vyne-live.js:1089-1094 | However a frame is cut, the ring then holds the last samples of what it held followed by the frame. |
| `CaptureRing.Capture.CapturedUplink` | frontend/vyne-live.js:1096-1103 | Reading back gives exactly the last samples sent, oldest first. |
| `CaptureRing.CaptureInPieces` | frontend/vyne-live.js:1089-1094 | What is kept does not depend on how the samples were cut into frames. |
| `CaptureRing.ShorterIsTail` | frontend/vyne-live.js:1096-1103 | Reading back fewer seconds gives the end of what more seconds give. |
| `Playback.RunIsSound` | frontend/vyne-live.js:717-826 | Over every run of pushes, barge-ins, turn ends and time no chunk is heard over another. |
| `Playback.BargeInSilences` | frontend/vyne-live.js:798-816 | In every run, nothing pushed before a barge-in of it is heard after that moment, whatever comes later. |
| `Playback.GaplessUnlessLate` | frontend/vyne-live.js:755-790 | A chunk follows the one before without a gap exactly when it comes at least 20 ms before that one ends. |
| `Playback.BurstIsOnePiece` | frontend/vyne-live.js:755-790 | Chunks that arrive together play as one piece of their total length. |
| `Playback.RemainingIsTail` | frontend/vyne-live.js:818-840 | The reported rest is the real one exactly when the run has not been ended, or nothing is left. |
| `PlaybackMeaning.EveryPushIsScheduled` | frontend/vyne-live.js:717-790 | In every run each chunk that is pushed is scheduled once, and time passes as it does. |
| `PlaybackMeaning.PlayedAsPushed` | frontend/vyne-live.js:755-790 | A chunk is played for as long as it lasts, from twenty milliseconds after it came or where the one before it ends, and to its end if no barge-in comes. |
| `PlaybackMeaning.OverIsLetGo` | frontend/vyne-live.js:789-796 | What is over is let go of when reported, and nothing else. |
| `PlaybackMeaning.BargeInStopsAll` | frontend/vyne-live.js:798-816 | A barge-in stops exactly what is not over, and the schedule begins anew. |
| `PlaybackMeaning.RunIsCounted` | frontend/vyne-live.js:817-840 | The run counts the chunks since the last turn's end or barge-in, and with none nothing is reported as left. |
| `Playback.PlaybackQueue.PushChunk` | frontend/vyne-live.js:717-790 | A push takes the queue's step and keeps the schedule sound. |
| `Playback.PlaybackQueue.FlushAll` | frontend/vyne-live.js:798-816 | A barge-in stops every source, and nothing is heard past it. |
| `Store.NothingIsLost` | frontend/vyne-client.js:670-815 | Over every orderly run, through conflicts, refusals, failures and failures after the server applied the batch, the last value set for a key is queued, on its way, applied or reported refused. |
| `Store.NothingSentBeforeHydration` | frontend/vyne-client.js:896-914 | Until the workspace has loaded nothing is queued or sent, whatever is edited or flushed. |
| `Store.QueueIsScheduled` | frontend/vyne-client.js:801-815 | Whenever work is queued a flush is scheduled. |
| `StoreSettles.SettlesInTwo` | frontend/vyne-client.js:670-799 | With no other writer and a healthy server everything queued, of the keys the scoping lets through, is on the server after at most two round trips. |
| `StoreSettles.EditsReachTheServer` | frontend/vyne-client.js:896-914 | After two healthy rounds a key set has its value on the server and a key removed is gone. |
| `StoreSettles.LoadedKeysAreAsLoaded` | frontend/vyne-client.js:592-602 | Loading gives each key of the server its version and value. |
| `StoreSettles.RoundConflicts` | frontend/vyne-client.js:670-799 | One edited key and a healthy round: the edit is refused and queued again exactly when the version held is not the server's, and saved otherwise; a save leaves the version held stale. |
| `StoreSettles.EveryLaterSaveConflicts` | frontend/vyne-client.js:741-799 | Of all the saves of a loaded key, nobody else writing, the first alone does not conflict, however many there are. |
| `StoreSettles.SecondSaveReadsOld` | frontend/vyne-client.js:741-799 | The second save of a loaded key always conflicts, with nobody else writing: the page reads its own earlier value again, and still does after the retry has saved the later one. |
| `StoreSettles.ReadYourWrites` | frontend/vyne-client.js:892-906 | A key no conflict has named since its last edit reads as that edit, over every run. |
| `StoreSettles.OverlapRestoresTheOlder` | frontend/vyne-client.js:802-805 | With two requests at once the older value can win: it fails, is queued again, and is saved over the newer. |
| `StoreSettles.FailedRemovalWins` | frontend/vyne-client.js:802-805 | A removal that fails is queued beside the newer value of its key and removes it. |
| `StoreSettles.DroppedKeyIsLost` | backend/src/routes/moduleState.ts:278-297 | A key the server's scoping drops is answered with success and saved nowhere. |
| `StoreSettles.BackoffDoublesToCap` | frontend/vyne-client.js:810-815 | The wait after the n-th failure in a row is a second doubled n times, never above thirty. |
| `StoreMeaning.ServedExactly` | backend/src/routes/moduleState.ts:278-333 | A request, key by key: what fits is stored under the next version and reported, what does not is left and reported as a conflict, what is to go goes, and what the sender may not write is left alone. |
| `StoreMeaning.DoneIffAllFit` | backend/src/routes/moduleState.ts:294-333 | The answer is a plain success exactly if every key that was let through fits. |
| `StoreMeaning.FlushedExactly` | frontend/vyne-client.js:670-702 | A flush sends all that is queued, with the version held of each key that is set. |
| `StoreMeaning.DeliveredExactly` | frontend/vyne-client.js:741-799 | An answer, key by key: the server's side of a conflict is taken over, and the edit queued again unless there is a newer one or it was a removal. |
| `StoreMeaning.FailedExactly` | frontend/vyne-client.js:730-749 | A failed request is queued again whole under the edits made since; a refused one is reported and dropped. |
| `StoreMeaning.RemovedIsNotRead` | frontend/vyne-client.js:907-914 | What is removed is not read in any run until it is set again or a conflict brings it back. |
| `StoreMeaning.FailuresAreWaitedOut` | frontend/vyne-client.js:801-815 | However many requests fail in a row each is waited out as long as the delays say, and nothing queued is lost. |
| `StoreLoops.BrowserStore.SetItemNow` | frontend/vyne-client.js:896-906 | An edit is cached, queued over any removal, and scheduled, or refused before hydration. |
| `StoreLoops.BrowserStore.RemoveItemNow` | frontend/vyne-client.js:907-914 | A removal is cached and queued over any edit, or refused before hydration. |
| `StoreLoops.BrowserStore.TakeBatch` | frontend/vyne-client.js:670-702 | The queue becomes the batch, with the versions of exactly its keys. |
| `StoreLoops.BrowserStore.RequeueBatch` | frontend/vyne-client.js:802-805 | The batch goes back on the queue and newer edits win. |
| `StoreLoops.BrowserStore.OnVersionConflict` | frontend/vyne-client.js:772-799 | Their versions and values are taken over, and exactly our edits of the conflicting keys queued again. |
| `StoreLoops.BrowserStore.OnRequestFailed` | frontend/vyne-client.js:730-749 | After a 429, a server error or no network the whole batch is queued again and a retry scheduled. |
| `StoreLoops.PutState` | backend/src/routes/moduleState.ts:294-333 | The write route applies each key whose version still matches, reports exactly the others with what is stored, and then removes. |
| `JsonRepair.ScanIgnoresStrings` | frontend/vyne-client.js:1261-1272 | The flag-driven scan counts exactly the brackets outside strings, as a reader of RFC 8259 that skips each string whole does. |
| `JsonNesting.NestingIsPairing` | frontend/vyne-client.js:1261-1272 | Brackets nest and are all closed, for the scan, exactly if they are pairs of brackets around pairs, written out. |
| `JsonCandidates.FirstIsBalanced` | frontend/vyne-client.js:1275-1291 | The first candidate is balanced exactly when, at the cut, curly brackets enclose square ones only. |
| `JsonCandidates.NothingClosesLater` | frontend/vyne-client.js:1263-1272 | In nested brackets the cut is after the last closing bracket of all. |
| `JsonCandidates.FirstIsClosedPrefix` | frontend/vyne-client.js:1275-1291 | Whatever the text, the first candidate is a prefix of it with closing brackets only. |
| `JsonCandidates.SecondIsClosedPrefix` | frontend/vyne-client.js:1296-1309 | And so is the second, with one. |
| `JsonCandidates.SecondIsBalanced` | frontend/vyne-client.js:1296-1309 | The second candidate is always balanced for a document that is not over before the text ends. |
| `JsonCandidates.FirstExactly` | frontend/vyne-client.js:1261-1291 | There is a first candidate exactly if there is a recovery point, and it is cut after the last. |
| `JsonCandidates.SecondExactly` | frontend/vyne-client.js:1296-1309 | There is a second exactly if the outermost object or array has a comma, and it is cut before the last. |
| `JsonCandidates.FindLastGood` | frontend/vyne-client.js:1261-1273 | The first loop finds the last recovery point. |
| `JsonCandidates.CloseHead` | frontend/vyne-client.js:1277-1290 | The second loop closes exactly what is open, squares first. |
| `JsonCandidates.FindLastComma` | frontend/vyne-client.js:1296-1306 | The third loop finds the last comma of the outermost level. |
| `JsonCandidates.Candidates` | frontend/vyne-client.js:1261-1311 | The texts tried, in their order, are the candidates of the specification. |
| `Pool.EveryOrderIsSound` | frontend/vyne-client.js:1507-1535 | In every order of completion each item is started once and in order, in-flight calls are as many as the width allows of the items not done, and the batch resolves once, when all are done. |
| `Pool.LimitIsKept` | frontend/vyne-client.js:1507-1535 | Whatever completes in whatever order, the calls in flight are never more than the limit, one at least, and fewer only when fewer items are left. |
| `Pool.ResultsAtTheirIndex` | frontend/vyne-client.js:1517-1522 | Each result, kept or failed, lands at its own index and never changes. |
| `Pool.ResolvesWithTheLast` | frontend/vyne-client.js:1523-1532 | The batch resolves with exactly as many completions as items, and has a call in flight until then. |
| `Pool.Runner.constructor` | frontend/vyne-client.js:1507-1535 | The pool starts as many calls as its width at once. |
| `Pool.Runner.Settle` | frontend/vyne-client.js:1516-1532 | A completion fills its slot, reports progress, and resolves or starts the next. |
| `Scoring.ComputeRoundScores` | frontend/vyne-scoring.js:64-131 | The loops over dimensions and interviews produce the round's scores of the specification. |
| `Scoring.OverallOf` | frontend/vyne-scoring.js:392-408 | The loop over dimensions produces the weighted overall. |
| `ScoringMonotone.DimScoreMono` | frontend/vyne-scoring.js:64-131 | A dimension's score does not fall when an interview's positive score or the prior round's rises. |
| `ScoringMonotone.RoundBounds` | frontend/vyne-scoring.js:64-131 | From scores on the 1 to 5 scale every computed score stays on it, through weighting, blend, carry-forward and rounding. |
| `ScoringMonotone.OverallMono` | frontend/vyne-scoring.js:392-408 | The overall and its maturity band do not fall when a dimension's score rises. |
| `ScoringMonotone.SameWeights` | frontend/vyne-scoring.js:362-382 | The weights do not depend on the scores. |
| `ScoringMeaning.ScoreIsBetween` | frontend/vyne-scoring.js:64-131 | A score lies between the least and greatest that went into it, rounded; unanimous interviews give exactly their score. |
| `ScoringMeaning.WeightlessIsIgnored` | frontend/vyne-scoring.js:64-131 | A role without weight does not move a score that a role with weight has spoken to. |
| `ScoringMeaning.CoverageDecides` | frontend/vyne-scoring.js:64-131 | On a follow-up round full coverage takes the round's own score and no coverage keeps the earlier one. |
| `ScoringMeaning.RolesWeigh` | frontend/vyne-scoring.js:64-131 | On a first round a dimension's score is the mean over the interviews with evidence on it, each with the weight of its own role. |
| `ScoringMeaning.CoverageWeighs` | frontend/vyne-scoring.js:64-131 | On a follow-up round it moves from the earlier score by the share covered, the mean of the shares told, weighed alike, or three tenths. |
| `ScoringMeaning.BandCounts` | frontend/vyne-scoring.js:286-304 | One band up for each of the four thresholds reached. |
| `ScoringMeaning.WeightsExactly` | frontend/vyne-scoring.js:362-382 | A round has weights exactly if all its interviews have tiers and one counts somewhere, and each is the sum of what they count for. |
| `ScoringRounds.OrderDoesNotMatter` | frontend/vyne-scoring.js:135-149 | With distinct round numbers a recomputation does not depend on how the rounds are stored. |
| `ScoringRounds.RecomputeIsIdempotent` | frontend/vyne-scoring.js:420-450 | Recomputing a recomputed engagement changes nothing. |
| `ScoringRounds.AgreesWithPriorScores` | frontend/vyne-scoring.js:177-191 | Full recomputation gives each interviewed round what computing it alone from the prior rounds gives. |
| `ScoringRounds.RaisingNeverLowers` | frontend/vyne-scoring.js:420-450 | Raising interview scores lowers no score of that round or a later one, nor any round's overall or band. |
| `ScoringCells.SortCells` | frontend/vyne-scoring.js:135-149 | The sort gives the same round objects in the specified order. |
| `ScoringCells.RescoreInPlace` | frontend/vyne-scoring.js:420-450 | Each round object is rewritten in place to what the specification gives it. |
| `ScoringCells.RecomputeAllRounds` | frontend/vyne-scoring.js:420-450 | The whole recomputation on objects: sorted, then rewritten in place. |
| `Findings.TokensOf` | frontend/vyne-findings.js:31-46 | A claim's tokens are distinct. |
| `FindingsMeaning.TokensExactly` | frontend/vyne-findings.js:31-46 | They are those of its words that count, a plural without its last letter. |
| `FindingsMeaning.SameClaimExactly` | frontend/vyne-findings.js:64-80 | Two statements make the same claim exactly if they have the same words, or share two at least and half of those of the shorter. |
| `Findings.ClaimsAreSymmetric` | frontend/vyne-findings.js:50-80 | On distinct tokens neither similarity nor same-claim depends on which statement comes first. |
| `Findings.RepeatsBreakSymmetry` | frontend/vyne-findings.js:64-80 | On lists with repeats they do. |
| `Findings.LabelsTellPeopleApart` | frontend/vyne-findings.js:119-139 | Two named holders of one role get different labels exactly when they are different people. |
| `FindingsMeaning.LabelNamesWhereItMust` | frontend/vyne-findings.js:119-139 | A role is named with the person exactly where somebody else is named in it. |
| `Findings.OpensOnlyWhenNew` | frontend/vyne-findings.js:165-181 | A finding opens a cluster exactly when no finding before it, in any cluster of its dimension, makes the same claim. |
| `FindingsMeaning.JoinsTheClosest` | frontend/vyne-findings.js:165-181 | Otherwise it joins the cluster of the entry closest to it, of several as close the first. |
| `Findings.GatherIsSound` | frontend/vyne-findings.js:143-181 | Every accepted finding is in exactly one cluster, of its own dimension, and every cluster is connected by same-claim. |
| `FindingsMeaning.ClustersHoldTheHeard` | frontend/vyne-findings.js:143-181 | A dimension's clusters hold exactly the findings on it with a text, a role and a word that counts. |
| `Findings.CorroboratedByTwo` | frontend/vyne-findings.js:185-197 | A cluster is corroborated exactly when two of its entries are attributed differently. |
| `Findings.EachReportedOnce` | frontend/vyne-findings.js:202-224 | Each cluster is in exactly one of the report's lists, under corroborated exactly when it is; every theme has at least two sources. |
| `Findings.ThematicExactly` | frontend/vyne-findings.js:202-224 | A dimension's uncorroborated clusters are its theme exactly if two sources speak of them, and are listed singly if not. |
| `FindingsLoops.ContentTokens` | frontend/vyne-findings.js:31-46 | The word loop produces the tokens. |
| `FindingsLoops.IsSameClaim` | frontend/vyne-findings.js:64-80 | The early exits and the count decide same-claim. |
| `FindingsLoops.BestCluster` | frontend/vyne-findings.js:167-177 | The nested loops find the best match, ties to the earlier cluster. |
| `FindingsLoops.GatherFindings` | frontend/vyne-findings.js:143-181 | The outer loop builds the clusters of the specification. |
| `FindingsLoops.CorroborateFindings` | frontend/vyne-findings.js:143-224 | The whole function reports each cluster once. |
| `Memory.AmbientIgnoresOwn` | frontend/vyne-memory.js:321-336 | Two engagements with the same rounds that differ only in one person's interviews show that person the same ambient material. |
| `Memory.SelfViewIsOwn` | frontend/vyne-memory.js:290-308 | What an engagement shows a person of themselves, words, scores and staleness, is what it would with nobody else's interviews in its rounds. |
| `Memory.NewestIsShown` | frontend/vyne-memory.js:321-336 | What somebody else last said on a dimension is shown, unless two statements at least as new are. |
| `Memory.LatestIsNewest` | frontend/vyne-memory.js:226-233 | The latest statement is that of the newest round, and of two in one round the later one. |
| `Memory.StandingFollows` | frontend/vyne-memory.js:226-262 | What stands on a dimension, entry by entry: the newest statement, the newest score, and that it is carried exactly if the person was heard later. |
| `MemoryMeaning.RoundsAreSorted` | frontend/vyne-memory.js:85-96 | Rounds are put in the order of their numbers, those without one last, and of one number as they came. |
| `MemoryMeaning.ItemsInTheirPlace` | frontend/vyne-memory.js:133-143 | Every interview of every round is taken once, in its place, under its round's number. |
| `MemoryMeaning.CollectedExactly` | frontend/vyne-memory.js:149-201 | The table holds everyone met who has a role or a name, with exactly the evidence their interviews gave. |
| `MemoryMeaning.RememberedExactly` | frontend/vyne-memory.js:149-262 | The memory holds exactly the people with evidence on one of the seven dimensions, and what stands on each is made of that evidence. |
| `MemoryMeaning.SelfViewExactly` | frontend/vyne-memory.js:290-308 | A person is shown what is remembered of them, exactly if they gave any evidence. |
| `MemoryMeaning.RememberedAsMet` | frontend/vyne-memory.js:149-216 | They are listed in the order in which they were met. |
| `MemoryMeaning.AttributedByName` | frontend/vyne-memory.js:105-123 | People are attributed by role, and by name too exactly where somebody else is named in it. |
| `MemoryMeaning.ViewExactly` | frontend/vyne-memory.js:321-336 | The ambient view has exactly the dimensions asked for on which somebody else is remembered to have said something. |
| `Memory.CollectCommutes` | frontend/vyne-memory.js:149-201 | The history of everyone else is built the same with one person's interviews taken out. |
| `MemoryLoops.TextByDim` | frontend/vyne-memory.js:165-172 | The words kept of an interview are its first statement on each dimension. |
| `Memory.KeptIsLatest` | frontend/vyne-memory.js:165-172 | Of the statements of one interview on a dimension the first is kept, so it is the latest exactly when the first and the last say the same. |
| `Memory.LaterIsForgotten` | frontend/vyne-memory.js:165-172 | The input: of two different statements on one dimension the later is not remembered. |
| `MemoryLoops.AddInterview` | frontend/vyne-memory.js:161-200 | One interview adds to its person's history what the specification adds. |
| `MemoryLoops.CollectPeople` | frontend/vyne-memory.js:149-201 | The first pass builds the table of the specification. |
| `MemoryLoops.DropShells` | frontend/vyne-memory.js:214-216 | Exactly the people without evidence are dropped. |
| `MemoryLoops.AmbientLines` | frontend/vyne-memory.js:321-336 | The loop produces the ambient lines of a dimension. |
| `Subscriptions.NewestWins` | backend/src/billing/subscriptions.ts:189-319 | In whatever order and however often events come, plan, token limit and last-event time end as the newest event says, and status and cancellation too if it is a lifecycle event. |
| `Subscriptions.DeliveriesAgree` | backend/src/billing/subscriptions.ts:189-319 | Two deliveries of the same events agree. |
| `Subscriptions.TimeNeverGoesBack` | backend/src/billing/subscriptions.ts:189-319 | The last event's time never decreases and is at least that of every event delivered. |
| `Subscriptions.AuditExplainsTheRow` | backend/src/billing/subscriptions.ts:189-319 | The row is exactly what the audited events make of the first row, and they are in order of time. |
| `Subscriptions.StatusSurvives` | backend/src/billing/subscriptions.ts:189-319 | The newest lifecycle event is taken, and the row ends with its status and cancellation, exactly when the row is not past it and it comes at least once before every event newer than it; otherwise the row ends as though it had never been sent. |
| `Subscriptions.CheckoutHidesTheStatus` | backend/src/billing/subscriptions.ts:224-273 | A checkout delivered before its subscription's own, older event hides the status. |
| `Subscriptions.PeriodEndSurvives` | backend/src/billing/subscriptions.ts:300-315 | The period's end of the newest change is kept on the same condition. |
| `Subscriptions.PeriodEndDependsOnOrder` | backend/src/billing/subscriptions.ts:300-315 | A deletion leaves whatever period's end had been taken, so the end depends on the order. |
| `Subscriptions.ColumnsAreLastSaid` | backend/src/billing/subscriptions.ts:189-319 | In every run the customer, the subscription and the plan are those of the last event taken that names one, and the limit is that of the plan shown. |
| `Subscriptions.Tenant.ApplyWebhookEvent` | backend/src/billing/subscriptions.ts:189-319 | The column updates take the specified step, or none for a stale event. |
| `AuthCache.HitIsFresh` | backend/src/auth/cache.ts:39-117 | Over every run, also with overlapping loads, a hit returns what one load of its key brought, stored less than one lifetime ago; no invalidation came since that load began exactly when none came while it was under way; the size is within the cap. |
| `AuthCache.OvertakenLoadIsHit` | backend/src/auth/cache.ts:100-117 | An invalidation that falls inside a load is followed by a hit on what was read before it. |
| `AuthCache.EvictionIsLeastRecent` | backend/src/auth/cache.ts:55-64 | What a store evicts was used before everything it keeps, and only from a full cache. |
| `AuthCache.StoredIsFound` | backend/src/auth/cache.ts:42-64 | What is stored is found, with its value, as long as it lives. |
| `AuthCacheKept.ExpiresInTime` | backend/src/auth/cache.ts:42-53 | One lifetime after anybody last asked for a key it is not found, whatever else happens. |
| `AuthCacheKept.DeadIsDropped` | backend/src/auth/cache.ts:42-53 | A lookup leaves a key in the cache exactly if it is found, and no other key is lost by it. |
| `AuthCacheKept.RecentIsFound` | backend/src/auth/cache.ts:42-64 | Over any run that looks up, besides a key just used, fewer keys than there is room for, and does not invalidate it, the key is found as long as it lives. |
| `AuthCacheMap.TtlCache.Find` | backend/src/auth/cache.ts:42-53 | A hit moves to the end and keeps its expiry; an expired entry is dropped. |
| `AuthCacheMap.TtlCache.Store` | backend/src/auth/cache.ts:55-64 | The entry is put last and the eviction loop leaves the specified cache. |
| `AuthCacheMap.TtlCache.RemoveWhere` | backend/src/auth/cache.ts:70-72 | Exactly the keys the predicate picks are deleted. |
| `AuthCacheMap.InvalidationIsExact` | backend/src/auth/cache.ts:96-122 | For an id without a NUL an invalidation drops that user's entries and no other user's. |
| `AuthCacheMap.TenantInvalidationIsExact` | backend/src/auth/cache.ts:128-159 | Likewise for a tenant. |
| `AuthCacheMap.KeysAreDistinct` | backend/src/auth/cache.ts:96-98 | No two identities share a key. |
| `AuthCacheMap.IdentitiesAreDistinct` | backend/src/auth/cache.ts:96-98 | The keys of two memberships, and of two sets of norms, are the same exactly if the identities are; an absent identity provider counts as an empty one. |

## Left out

- Keys as strings: the model starts from parsed keys. A segment that is a norm is one, any other text is read as a
  code, and both are looked up. Codes are read upper-cased, so two spellings of one code are one; the key of an
  engagement record is its code, has no underscore in it, and is not moved by name. The suffixes `eng`, `client`,
  `index`, `none` and `unassigned` are neither client norms nor codes.
- An index entry under a text that is not a norm: a rename moves no key for it, and a purge is called with norms.
- Malformed JSON in the four shared keys: each is absent or parsed. Malformed values elsewhere are `Raw`.
- JSON key order: kept for the engagement index, where it decides; elsewhere objects are maps, and the
  reordering of integer-like keys is not modelled.
- Lower-casing beyond ASCII, trimming, and the 500,000-character value limit.
- `localeCompare` is the order of characters.
- Owners' reads: a caller without a restriction passes through the filter unchanged.
- `migrateLegacyNormKeys`, `migrateNormKeysToCode`, `renameClientKeys` and the re-keying of usage events.
- ClientRenameProofs.OthersUntouched: the last briefing and the snapshots are owned by their newest value, and a
  destination belongs to the rename, so none of them is claimed to stay.
- ClientPurge.NothingIsLeft: index entries under an older norm are not edited by the purge, so they are excluded
  here; `OlderIndexEntryStays` says what they leave.
- ClientRenameProofs.CodeStaysKnown: requires that no norm is listed twice, as in any parsed index; every operation
  keeps it so.
- LiveTurn: the mute-reply timer and the reply watchdogs, which close no turn.
- Handover.DeadlineIsKept: the 300 ms poll fires on time; a late timer moves the bound by its lateness.
- Renewal: the silent-renewal watchdog, the nudge sent after a renewal, and a page that calls `start()` during a
  renewal.
- Playback: audio contexts and sources; a source's end is reported only once its chunk is over.
- Store.NothingIsLost: requires one request at a time, and that a key is not set again while its removal is on the
  way; `StoreSettles.OverlapRestoresTheOlder` and `FailedRemovalWins` show both are needed. Authentication
  failures, `rehydrate` and the unload flush are not modelled.
- Store: the server's scoping is a set of dropped keys; what it does to shared indexes is in `ClientScope`.
- JsonCandidates: parsing itself, the choice between salvage and prose, code fences.
- `vyneFit`, whose fill loop only cuts a list at a budget before a model call.
- Floating-point rounding: scores are exact reals, rounded half up to one decimal.
- Scoring: round numbers are distinct and rounds without interviews carry no stored score, as the results say.
- Findings: the split of text into words, and the order of texts and lists in a report.
- Memory.SelfViewIsOwn: how many rounds ago a score was measured is told from the newest round of the whole
  engagement, so it is not claimed to be the person's own.
- Memory: ranking for a prompt, and the consultant's view, which is the memory itself.
- Subscriptions: which tenant an event belongs to, the usage gate, and the Stripe and SQL plumbing; the plan an
  event's price stands for is given.
- AuthCache: what a row or a set of norms holds; a value is a number. The switch that disables both caches.
- Pages, banners, microphones, sockets, tokens, prompts, migrations and rate limits.
