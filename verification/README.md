# yatb: a verified model

yatb is an FTP bouncer. It sits between FTP clients and a site, passes their control connections on,
relays or refuses their data connections, and keeps lists of who may do what. This project states in
Dafny what its control sessions, data threads, counters, locks and text formats do, and proves what they
keep in every run.

`dafny verify dfyconfig.toml` checks everything.

| file | what it is about | source |
|---|---|---|
| `Session.dfy` | one control connection as a state machine: a step takes a message of the site, a line of the client or an outside event | `src/controlthread.cc` |
| `SessionRuns.dfy`, `SessionOutput.dfy` | what holds in every state of every session: order of the login, data thread lifecycle, TLS enforcement, relink isolation, the guarded site address | `src/controlthread.cc` |
| `SessionLogin.dfy` | how a login goes: the names that lines carry, what becomes of each reply, the dialogue of a relink | `src/controlthread.cc` |
| `SessionCommands.dfy`, `SessionRequests.dfy`, `SessionLists.dfy` | what messages and lines come to: each line served once, requests followed to their data thread, flags told by the history, edits of the shared lists | `src/controlthread.cc` |
| `ControlThread.dfy` | the class with the fields and flags of the source, over the list objects; its main loop runs the state machine and keeps the invariants of every session | `src/controlthread.cc` |
| `DataThread.dfy` | a data thread up to the relay: connecting, TLS for both ends, and one policy that both branch trees implement | `src/datathread.cc` |
| `Handoff.dfy` | the variables through which a data thread learns its direction, with every write and every one of the repeated reads a step of its own | `src/controlthread.cc`, `src/datathread.cc` |
| `Locks.dfy`, `LockProgress.dfy`, `LockTraps.dfy` | every mutex and every join of the main, traffic, control and data threads, any of which SIGHUP may interrupt; who gets on, who can wait in a circle, who waits for ever | all |
| `Relay.dfy` | `SWrite`, `SRead` and the speed loop | `src/datathread.cc` |
| `Counters.dfy`, `Calendar.dfy` | the five traffic counters under interleaving, and the thread that resets three of them | `src/counter.cc`, `src/yatb.cc` |
| `StringList.dfy`, `IpList.dfy` | comma lists and the rotating address list | `src/stringlist.cc`, `src/iplist.cc` |
| `ListFile.dfy`, `Whitelist.dfy`, `FpWhitelist.dfy` | both whitelists and their files | `src/whitelist.cc`, `src/fpwhitelist.cc` |
| `Passive.dfy` | the 227 reply of RFC 959 and the guard against the site address | `src/controlthread.cc`, `src/tools.cc` |
| `Config.dfy`, `ConfigKeys.dfy` | looking keys up in the configuration text, and the keys that are looked up | `src/config.cc` |
| `Strings.dfy` | the `std::string` operations that the others use | |

## What turned out not to hold as one might expect

Each of these is a lemma with the exact condition or with a run that shows it.

- SIGHUP runs its handler in whichever thread the system picks, in the middle of whatever that thread does, and
  the mutexes are not recursive. A circular wait can come of a move exactly when the move is an early return of
  `Write` in a control thread, or a signal for a thread that holds the config lock, or that holds the lock of the
  address list while the configuration can be read (`LockProgress.CircleComesOfExactly`). Runs without such moves
  are free of circular waits, however often the program is signalled (`Locks.NoCircularWait`), and in runs
  without any early return every thread gets on (`LockProgress.EverybodyGetsOn`). A signal for the main thread
  in `getip` makes it wait for itself for ever, with the connection list lock in its hands
  (`LockTraps.SignalBlocksMain`).
- The two early returns of `Write` leave the read-write lock held, and they are the only operations that leave
  any lock held (`Locks.OnlyEarlyReturnsLeave`). A control thread that then drops a data thread which is about to
  write blocks in its join for ever (`LockTraps.EarlyReturnBlocksJoin`). An early return in a data thread closes no
  circle, but its control thread waits for the lock for ever (`LockTraps.EarlyReturnBlocksSession`).
- A data thread is started before `directionset` is reset. Just after its start it can relay with the direction
  of the previous transfer exactly when that flag is still set, which any second transfer finds
  (`Handoff.OvertakesExactlyIfSet`, `Handoff.SecondTransferCanOvertake`).
- A data thread reads `direction` three times: for the download rule, for the upload rule and for the relay. Two
  reads agree exactly when the latest commands before them go the same way. A STOR or RETR that comes in between
  makes them differ (`Handoff.ReadsAgreeExactly`, `Handoff.ReadsCanDiffer`), and then the relay may go a way whose
  rule was never asked: an accepted transfer is sure to meet the rule of the direction it relays exactly when the
  latest commands before that rule and before the relay go the same way (`Handoff.AcceptedMeetsItsRuleExactly`).
- `enforce_tls` is looked at when the site answers USER. A client whose USER and PASS are both read before the
  site has answered is welcomed without TLS (`SessionRuns.PipelinedLoginEscapes`). It takes two reads: what comes
  in one read is taken for one line.
- A first listing passes the FXP address rule whatever its peer is, because its address is recorded before
  the rule is applied (`DataThreads.FirstListingPasses`).
- There can be one data thread more than commands that asked for one, the pending command included: exactly when
  the answer to a PORT command gets lost, with no command to spare, after the thread was started
  (`SessionRuns.CoveredUnlessAnswerLost`). Such a run exists exactly under the configurations that bounce the
  connections of some session, at once or after a relink (`SessionRuns.AnswerCanGetLostExactly`).
- A reload replaces the settings too. It leaves every allowed transfer allowed exactly when the new settings put no
  rule in force that was not, and hash addresses as the old ones did if they look them up
  (`SessionLists.ReloadTakesNothingAway`).
- A fingerprint typed in lower case can be stored twice. An insertion keeps the fingerprints distinct exactly when
  the line is malformed, known as typed, or new in upper case (`FpWhitelists.InsertDistinctExactly`).
- Reading the fingerprint list drops the last address of every entry, so each restart forgets one more
  (`FpWhitelists.RestartsForget`).
- The guard in `Write` also drops replies that advertise another address: exactly those whose first three octets
  are the site's and whose last octet, as text, begins with the site's (`Passive.GuardExact`). The reply to PASV of
  a data thread then does not reach the client, and the lock stays held
  (`SessionRequests.ThreadAnswerReachesExactly`).
- A key of the configuration answers for another one that ends in it. The lookup gives what the file says exactly
  when the first line whose key ends in the wanted one is a line of that key, or has the right value anyway
  (`Configs.LookupIsMeaningExactly`, `Configs.SuffixMisleads`).
- The day counter misses a gap between two passes that is a multiple of seven days, and the month counter one of
  a multiple of twelve months (`Calendars.DayResetExactly`, `Calendars.MonthResetExactly`). The week counter is reset
  only by a pass on a Monday, and not if that has the same day of the month as the Monday of the last pass
  (`Calendars.WeekResetExactly`).
- Nobody looks at the result of `readlist` on a reload. The next `getip` finds an address exactly when the latest
  `readlist` succeeded, and else indexes an empty list (`IpLists.SafeExactly`, `IpLists.BadReloadTakesAll`).
- With a negative `retry_count` the retry loops have no end (`Relays.NegativeRetryNeverEnds`).

## Model

| member | source | states |
|---|---|---|
| `ControlThreads.ControlThread.constructor` | src/controlthread.cc:51-107 | a new connection starts with no login step taken, no user name but the placeholder, not relinked, no TLS, ascii mode, no data thread, the lock free; the invariant of all sessions holds |
| `ControlThreads.ControlThread.WriteClient` | src/controlthread.cc:2379-2428 | a write to the client: refused when it would show the site address while bouncing, over when it fails or the traffic limit is reached, else appended to what was sent; both early returns keep the lock, and the next use of it by the same thread never comes back |
| `ControlThreads.ControlThread.TryRelink` | src/controlthread.cc:222-308 | the whole relink, as in the state machine: new connection, password dialogue if asked for, made-up welcome, and only then relinked and logged in; what the dialogue comes to is `SessionLogin.RelinkWithPassword` |
| `ControlThreads.ControlThread.ReadPassword` | src/controlthread.cc:263-293 | lines are answered with 500 until PASS comes; a client that leaves ends the session |
| `ControlThreads.ControlThread.Enforce` | src/controlthread.cc:587-610 | without TLS a session is relinked, thrown out or let through, as configured |
| `ControlThreads.ControlThread.AfterUser` | src/controlthread.cc:581-649 | replies between USER and PASS: enforcement first, then relink or end for a denied user; nothing is forwarded once relinked |
| `ControlThreads.ControlThread.AfterPass` | src/controlthread.cc:651-768 | replies after PASS: welcome, full or closed site, failed login with or without relink |
| `ControlThreads.ControlThread.SiteReply` | src/controlthread.cc:533-917 | which of the branches a message of the site takes, for every state of the flags |
| `ControlThreads.ControlThread.AuthLine` | src/controlthread.cc:966-1003 | AUTH TLS and AUTH SSL are passed on or translated and count as the first command, with the flag chain kept |
| `ControlThreads.ControlThread.EarlyLine` | src/controlthread.cc:931-1058 | the commands that are understood before and after the login |
| `ControlThreads.ControlThread.ParseUser` | src/controlthread.cc:1074-1081 | the user name is noted or the session ends, as in the state machine; which name that is, is `SessionLogin.NameOfUser` and `SessionLogin.NameOfGhost` |
| `ControlThreads.ControlThread.LoginLine` | src/controlthread.cc:1059-1097 | until PASS lines are passed on; USER and PASS move the login one step, and USER without a name ends the session |
| `ControlThreads.ControlThread.ClientLine` | src/controlthread.cc:931-2230 | which of the branches a line of the client takes, for every state of the flags |
| `ControlThreads.ControlThread.Turn` | src/controlthread.cc:500-2236 | one turn of the loop takes one step of the state machine and keeps the invariant: order of the login, relinks, counts of data threads, what was written to whom |
| `ControlThreads.ControlThread.Meanwhile` | src/datathread.cc:284-292 | what data threads and other sessions do between two turns: the same state as in the state machine, the login flags untouched |
| `ControlThreads.ControlThread.MainLoop` | src/controlthread.cc:496-2236 | for every sequence of inputs the loop ends in exactly the state that the state machine reaches, the writes of data threads and the edits of other sessions included, and with the invariant of all sessions |
| `ControlThreads.ControlThread.Finish` | src/controlthread.cc:110-218 | the connection ends with every data thread object freed and every thread joined or failed to join, unless its lock was kept |
| `ControlThreads.MakeThread` | src/controlthread.cc:12-29 | over the life of a connection, whatever comes in: no message of the first site after a relink, the site address never written while bouncing, no more threads than commands; all data thread objects freed and all threads joined barring join errors if the connection ends, and it ends unless a `Write` kept the lock |
| `SessionRuns.StepKeeps` | src/controlthread.cc:533-2236 | every step of a session keeps the invariant on relinks, data threads, pending commands and counts, and turns nothing back |
| `SessionRuns.NothingTurnsBack` | src/controlthread.cc:533-1097 | over any continuation of any run the login never falls back, a relink stays, and from USER on usingssl and the user name are frozen |
| `SessionRuns.DataThreadsAccountedFor` | src/controlthread.cc:770-886 | in every run objects created equal objects freed plus the live one, threads equal joins plus the live one, and threads never exceed the accepted commands, the pending one included while the session goes on |
| `SessionRuns.AnswerLostExactly` | src/controlthread.cc:799-865 | a step leaves an ended session with a new data thread exactly when it started one for a PORT command and the answer did not get through |
| `SessionRuns.CoveredUnlessAnswerLost` | src/controlthread.cc:770-886 | in every run, data threads and the pending command are covered by accepted commands if and only if no such answer was lost with no command to spare |
| `SessionRuns.AnswerGetsLost` | src/controlthread.cc:848-859 | for every configuration that bounces some session, every PORT command and every reply that can be decoded, a run from the start in which the answer to that command gets lost and the bound is broken |
| `SessionRuns.AnswerCanGetLostExactly` | src/controlthread.cc:826-859 | such runs exist if and only if connections are bounced, or are bounced after a relink and relinking is on |
| `SessionRuns.DataThreadsFitTheSession` | src/controlthread.cc:792-793 | a live data thread implies a finished login and bouncing, and holds the user, TLS and relink values that the session still has; activecon is 0 between steps |
| `SessionRuns.NothingLeftBehind` | src/controlthread.cc:110-113 | after the destructor every data thread object is freed and every thread joined, barring join errors |
| `SessionRuns.RelinkResult` | src/controlthread.cc:222-308 | a relink either ends the session or makes it relinked and welcomed, and touches nothing else |
| `SessionRuns.TlsEnforced` | src/controlthread.cc:587-610 | with enforce_tls and no exclude list, if a site reply was consumed between USER and PASS then being welcomed implies TLS or relinked |
| `SessionRuns.PipelinedLoginEscapes` | src/controlthread.cc:1085-1097 | without such a reply every such configuration has a run that is welcomed without TLS |
| `SessionRuns.ExcludedOrTls` | src/controlthread.cc:672-679 | with the exclude list, a session that goes on after a successful login has TLS or its user was listed at that moment |
| `SessionRuns.RelinkOnce` | src/controlthread.cc:587-745 | tryrelink is entered at most once, and after it the session is over or relinked for good |
| `SessionOutput.RelinkIsolates` | src/controlthread.cc:298-308 | in no run does a message of the original site follow the welcome made up for the relink site |
| `SessionOutput.SiteAddressNeverShown` | src/controlthread.cc:2391-2399 | while bouncing, nothing written to the client in any run contains the guarded text, whoever made it up, data threads included |
| `SessionLogin.ArgumentOfLine` | src/controlthread.cc:1538-1560 | the argument of a line is exactly the text between the first blank and the line end, for every command without a blank and every argument |
| `SessionLogin.NameOfUser` | src/controlthread.cc:1074-1081 | "USER name" carries exactly that name, for every name without a "!" |
| `SessionLogin.NameOfGhost` | src/controlthread.cc:1074-1081 | "USER !name" carries exactly that name, for every name |
| `SessionLogin.UserIsNamed` | src/controlthread.cc:1059-1084 | a session that hears USER for the first time has exactly the typed name, then and after any continuation of the run |
| `SessionLogin.LoginLineExactly` | src/controlthread.cc:1059-1097 | until PASS every line goes to the site as it is; the exact next state for each: the first USER names the user or ends the session, PASS behind it completes the login, nothing else is touched |
| `SessionLogin.AuthExactly` | src/controlthread.cc:966-1003 | AUTH is passed on or translated, counts as the first command if there was none, and AUTH SSL is noted exactly where it is translated |
| `SessionLogin.PasswordsExactly` | src/controlthread.cc:263-293 | the password dialogue goes on if and only if some line is PASS and every line before it could be answered, and each of these was answered with the same 500 |
| `SessionLogin.RelinkWithPassword` | src/controlthread.cc:222-308 | for all outcomes: a relink with a password goes on if and only if the connection comes about, PASS comes, and each write gets through; then the client has been sent exactly the 427 if any, 331, one 500 for each line before PASS, and 230, and is logged in; and one that does not go on relinks nobody |
| `SessionLogin.RelinkWithoutPassword` | src/controlthread.cc:222-308 | the relink after a failed login needs the connection and the welcome only |
| `SessionLogin.NobodyRelinkedWithoutPass` | src/controlthread.cc:587-648 | no reply between USER and PASS leaves a session relinked without PASS among the lines that came, behind the question for it |
| `SessionLogin.AfterUserExactly` | src/controlthread.cc:581-649 | which replies between USER and PASS relink, which end the session and with what text, and which are just shown |
| `SessionLogin.AfterPassExactly` | src/controlthread.cc:651-768 | which replies after PASS welcome, throw out, end or relink, in terms of the flags of the reply, the settings and the exclude list |
| `SessionLogin.FullSiteEnds` | src/controlthread.cc:680-728 | a full or closed site ends the session in every configuration, its message being the last thing that the client is sent |
| `SessionLogin.BeforeUserExactly` | src/controlthread.cc:533-580 | an AUTH reply is shown, or translated where AUTH SSL was, and the session then goes on if and only if the write and both handshakes succeed; PROT is on after AUTH SSL only, and the user name tells how the handshakes went |
| `SessionLogin.WriteExactly` | src/controlthread.cc:2379-2428 | a write to the client goes on if and only if the text may be shown and is sent; what is left behind in each other case |
| `SessionLogin.ThreadWritesExactly` | src/datathread.cc:284-292 | a data thread writes by the rules for the client, does not end the session, and writes nothing once dropped or while the lock is kept |
| `SessionCommands.EachLineOnce` | src/controlthread.cc:931-2230 | a session that goes on has written exactly one item for each line of the client (a QUIT with its report aside): to the site the line or what stands for it (ABOR, AUTH TLS, PASV, CPSV), or to the client an answer of its own |
| `SessionCommands.QuitServed` | src/controlthread.cc:1145-1164 | QUIT may be preceded by the traffic report, and is then passed on unchanged |
| `SessionCommands.LineGoesExactly` | src/controlthread.cc:931-2230 | for every state and line, yatb's own commands aside: which lines are answered here and in which words, and exactly what goes to the site for the others |
| `SessionCommands.ExtendedCommandsKept` | src/controlthread.cc:1455-1470 | while bouncing, EPSV and EPRT write nothing to the site and nothing but an own answer to the client |
| `SessionCommands.RefusalEchoes` | src/controlthread.cc:1455-1461 | a refused line comes back in upper case without its line end |
| `SessionCommands.DropsThread` | src/controlthread.cc:943-1387 | ABOR, PASV, PORT and CPSV drop the data thread in every state, whether the join succeeds or not, and no other line touches it |
| `SessionCommands.NoMessageLost` | src/controlthread.cc:533-917 | in every session every message of the site reaches the client unchanged and first, except replies that open data connections, confirmations of yatb's own messages, the translated AUTH reply, and messages at which the session ends or is relinked |
| `SessionCommands.TlsByHandshake` | src/controlthread.cc:311-332 | over any run usingssl holds exactly when at some point the site agreed to AUTH, both handshakes succeeded and the session went on |
| `SessionCommands.TellingStep` | src/controlthread.cc:887-916 | a message for the admins is passed on only at a 226, right behind that reply, and a confirmation is hidden only if a message was sent |
| `SessionCommands.TellingExactly` | src/controlthread.cc:887-916 | after the login, the message for the admins is sent if and only if one is waiting, the reply is the end line of a 226 and no request is pending |
| `SessionCommands.ToldAtMostOnce` | src/controlthread.cc:887-916 | over any run the admins are told at most as often as data threads left messages, and no more confirmations are hidden than messages were told |
| `SessionRequests.PasvGetsItsThread` | src/controlthread.cc:770-825 | PASV and any reply that can be decoded lead to a data thread that connects to the address and port of the reply and announces the advertised address with its own port, which is the port of the reply plus the offset, or a random one of the port range after a relink; all flags are reset and nothing of the reply is shown |
| `SessionRequests.ThreadAnswerReachesExactly` | src/datathread.cc:289-292 | what such a thread tells the client gets through if and only if the advertised address does not begin like the site's; otherwise the lock is kept |
| `SessionRequests.PortGetsItsThread` | src/controlthread.cc:826-886 | any PORT command and any reply to the PASV in its place that can be decoded lead to a data thread between exactly the endpoints that they name, the client being answered 200 and the flags reset |
| `SessionRequests.UndecodedReply` | src/controlthread.cc:785-825 | a reply to PASV that cannot be decoded starts nothing and ends the request |
| `SessionRequests.UndecodedPort` | src/controlthread.cc:844-886 | a PORT that cannot be decoded is answered with 500 when the reply comes, one whose reply cannot be is not answered, and nothing is started |
| `SessionRequests.UnansweredPort` | src/controlthread.cc:846-867 | a PORT whose reply from the site cannot be decoded is not answered at all, and no thread is started |
| `SessionRequests.NoRoom` | src/controlthread.cc:770-784 | before a new data thread, a failed join or the traffic limit ends the session; the limit is told to the client |
| `SessionRequests.PortConnectsQuads` | src/controlthread.cc:826-886 | in the forms of RFC 959 these are the quads and ports that client and site have printed |
| `SessionRequests.FlagsTellTheStory` | src/controlthread.cc:816-2219 | in every run that goes on, transfer type, SSCN, PROT, direction and PORT text are those last said, and a request, a listing or a direction is pending exactly if it came since the last reply that a request was waiting for |
| `SessionLists.RelinkedChangesNoList` | src/controlthread.cc:1538-2180 | a relinked session changes no shared list, whatever it is sent |
| `SessionLists.OnlyAdminsEdit` | src/controlthread.cc:1166-2180 | in any run left alone by other sessions a list changes only if a listed admin who was not relinked was served |
| `SessionLists.OthersAreNotUnderstood` | src/controlthread.cc:1166-1218 | for anybody else a command of yatb has the very effect of a command that it never understands |
| `SessionLists.EditIsSetAlgebra` | src/controlthread.cc:1538-1977 | show, add and del on each of the five comma lists are identity, union and difference with the names given, entries stay distinct and the others stay in place |
| `SessionLists.TypedEditIsSetAlgebra` | src/controlthread.cc:1538-1977 | for the command as it is typed: after add or del of the comma-separated names, an entry is on the list if and only if it was or was typed, or was and was not typed |
| `SessionLists.NothingTyped` | src/controlthread.cc:1563-1580 | without a name nothing is changed, and the answer says what is missing |
| `SessionLists.AnswersInWords` | src/controlthread.cc:1538-1600 | show answers with the list as it is, joined with commas; edits with names are confirmed |
| `SessionLists.AddedInWords` | src/controlthread.cc:1998-2040 | for every typed "ip,rest": "already added" exactly for a listed address, else "added" exactly with a second comma, else a complaint |
| `SessionLists.FingerprintAddedInWords` | src/controlthread.cc:2100-2142 | the same for fingerprints, as typed |
| `SessionLists.EditTouchesOneList` | src/controlthread.cc:1538-1977 | such a command leaves the four other lists, both whitelists and the hashing alone |
| `SessionLists.IpAnswerIsTrue` | src/controlthread.cc:1998-2040 | the answer to an insertion into the address list says "added" exactly when one new entry with that key was appended, which is for well-formed lines of unlisted addresses |
| `SessionLists.FingerprintAnswerIsTrue` | src/controlthread.cc:2100-2142 | the same for the fingerprint list, where the entry is stored in upper case |
| `SessionLists.TypedAddress` | src/controlthread.cc:1998-2040 | "ip,comment,user" as typed stores exactly this entry behind the others, the address hashed if addresses are, unless the address is listed |
| `SessionLists.TypedFingerprint` | src/controlthread.cc:2100-2142 | the same for fingerprints, in upper case |
| `SessionLists.TypedAddressRemoval` | src/controlthread.cc:2041-2072 | removal of a typed address, or digest, leaves exactly the entries of other addresses |
| `SessionLists.TypedFingerprintRemoval` | src/controlthread.cc:2143-2172 | removal of a typed fingerprint leaves exactly the entries of other fingerprints |
| `SessionLists.ReloadIsUnion` | src/controlthread.cc:1523-1527 | a reload forms the union of each list with the configured names and leaves both whitelists as they are |
| `SessionLists.ListsStaySound` | src/controlthread.cc:1511-2180 | in every run of every session, if the other sessions keep to it, the comma lists stay distinct and comma-free and the addresses pairwise distinct |
| `SessionLists.ReloadTakesNothingAway` | src/controlthread.cc:1511-1527 | for old and new settings and hashing: after a reload every transfer that the policy allowed is still allowed, for all lists and all configured names, if and only if no rule is newly in force, nobody loses an exemption, and addresses keep their keys where they are looked up |
| `DataThreads.DataThread.Listen` | src/datathread.cc:244-282 | listening is tried up to three times and succeeds if one try does |
| `DataThreads.DataThread.Connect` | src/datathread.cc:167-345 | both ends are connected exactly when every socket call on the way succeeds and the 227 reply gets past `Write`; what the client is told on the way, which is nothing where `Write` refuses it |
| `DataThreads.DataThread.Secure` | src/datathread.cc:357-405 | which ends get TLS, in which role, and whose fingerprint is kept; whenever it succeeds a client with PROT P has TLS unless the data is just forwarded, its fingerprint being that of the handshake, and TLS to the site implies TLS to the client |
| `DataThreads.DataThread.NoteIp` | src/datathread.cc:470-479 | a new address of a known fingerprint is stored and announced; which fingerprints are known does not change |
| `DataThreads.DataThread.PassivePolicy` | src/datathread.cc:442-523 | the passive branch tree accepts exactly what the policy allows, with the accepted client as peer, and refuses with the answer of the first broken rule |
| `DataThreads.DataThread.ActivePolicy` | src/datathread.cc:525-608 | the active branch tree does the same with the address of the PORT command as peer |
| `DataThreads.DataThread.Decide` | src/datathread.cc:424-610 | the first listing records its peer, and the policy is asked with the address already recorded |
| `DataThreads.DataThread.DataLoop` | src/datathread.cc:167-618 | the relay is reached exactly when both ends connect, the handshakes succeed and the policy of the lists at that time allows the transfer with the directions that its two rules read; with a listed fingerprint, address or admin, or the first listing's peer, this is up to the TLS and direction rules alone; every relayed transfer is protected as PROT, the relink and the settings ask for; it goes the way that is read last |
| `DataThreads.Control.Write` | src/controlthread.cc:2391-2399 | a reply that shows the site address is not sent and the write fails; any other is appended |
| `DataThreads.Serve` | src/datathread.cc:167-618 | the data threads of a session one after the other, with any edits of the lists in between: each is relayed exactly if the policy allows it, and one that no list speaks for only with the peer of the session's first listing |
| `DataThreads.DirectTransferExactly` | src/datathread.cc:448-464 | for all settings, lists and transfers: a direct transfer is refused if and only if TLS is enforced and missing and neither the exclude list nor a relink exempts the user |
| `DataThreads.ForeignTransferExactly` | src/datathread.cc:466-523 | a transfer with a foreign peer is refused if and only if no entry of any list and not the first listing speaks for the peer, or TLS is missing where enforced for such transfers, or the user is not on the list of the direction |
| `DataThreads.SpokenForIsEnough` | src/datathread.cc:482-494 | if some entry of the fingerprint list, of the address list or of the admin list, or the first listing, speaks for the peer, then the other rules alone decide |
| `DataThreads.UnspokenForIsRefused` | src/datathread.cc:482-494 | with the address list in use any other transfer with a foreign peer is refused |
| `DataThreads.RefusalNamesTheRule` | src/datathread.cc:448-608 | a refused client is told, word by word, the first of the rules that it breaks |
| `DataThreads.LegsExactly` | src/datathread.cc:357-405 | which legs have TLS: both exactly under PROT P without forwarding, relinking and translation; none while forwarding; after a relink the site as configured and the client for that or PROT P; never the site alone |
| `DataThreads.ConnectedExactly` | src/datathread.cc:167-405 | a transfer gets to the policy if and only if every socket call that is made, one of three tries to listen, the announcement, and each handshake that is due succeed |
| `DataThreads.DataThread.BetweenSitesExactly` | src/datathread.cc:466-523 | the same rules for a data thread as it is, in terms of its user name, its peer, the fingerprint of the handshake, and the list objects |
| `DataThreads.DataThread.OpeningExactly` | src/datathread.cc:244-292 | what a client hears before the policy: nothing if it was connected to or before listening was tried, else the announcement or that no port could be had, unless `Write` drops it |
| `DataThreads.DataThread.NotesExactly` | src/datathread.cc:470-479 | the address is added and the admins are told exactly for a foreign peer with a known fingerprint and a new address, where both settings ask for that |
| `DataThreads.RelayedDirectionIsChecked` | src/datathread.cc:500-618 | an accepted transfer is sure to meet the rule of the direction it relays if and only if that rule read the same direction |
| `DataThreads.MoreRightsAllowMore` | src/datathread.cc:466-523 | extending any list never refuses a transfer that was allowed |
| `DataThreads.StricterRefuses` | src/controlthread.cc:1511-1512 | settings with a new rule in force, or without an exemption, refuse some transfer that was allowed, whatever the hashing |
| `DataThreads.MilderAllowsMore` | src/controlthread.cc:1511-1512 | all other settings allow whatever was allowed |
| `DataThreads.NotingDecidesNothing` | src/fpwhitelist.cc:14-46 | CheckIp changes no decision about any transfer of any session |
| `DataThreads.DirlistIsFirstListing` | src/datathread.cc:424-436 | the remembered address is that of the session's first listing with an address, or empty |
| `DataThreads.DirlistWrittenOnce` | src/datathread.cc:424-436 | once set it never changes |
| `DataThreads.FirstListingRule` | src/datathread.cc:482-494 | with the address list on, a relayed FXP transfer with unlisted fingerprint, address and user has the peer of the first listing |
| `DataThreads.FirstListingPasses` | src/datathread.cc:424-494 | the first listing is decided by the TLS and direction rules alone, wherever its peer is |
| `Handoff.StepKeepsInv` | src/controlthread.cc:799-886 | every single write and read of the shared variables, by either thread, keeps what the two threads rely on, also where no data thread comes up and where the block ends at a failed answer to PORT |
| `Handoff.CommandPublished` | src/controlthread.cc:2182-2219 | STOR publishes an upload, RETR, LIST and NLST a download, and the last two a listing, which stays one until the reset |
| `Handoff.DirectionIsOwn` | src/datathread.cc:419-618 | in every interleaving a data thread that leaves its wait after the reset does so after a command of its own, and each of its three reads gives the direction of the latest such command; a listing implies a LIST or NLST of its own |
| `Handoff.DirectionIsOwnInBlocks` | src/controlthread.cc:799-865 | when start and reset are one block, or start and quit where the answer to PORT failed, every thread that relays anything has read directions of its own; a thread that passes its wait without a command is one that is being told to quit |
| `Handoff.ReadsAgreeExactly` | src/datathread.cc:500-618 | in every interleaving any two reads of the direction agree exactly when the latest commands before them go the same way, hence whenever no command of the other direction came in between |
| `Handoff.OneCommandBetween` | src/datathread.cc:500-618 | with at most one command in between they agree exactly when it does not go the other way |
| `Handoff.AcceptedMeetsItsRuleExactly` | src/datathread.cc:500-618 | in every interleaving, for all settings and lists: a transfer accepted with the directions that its two rules read meets the rule of the direction it relays if and only if the latest commands before that rule and before the relay go the same way, hence whenever no command of the other way came in between |
| `Handoff.ReadsCanDiffer` | src/datathread.cc:500-618 | for any two commands a run in which the first rule sees the first and the relay the second, with the second rule on either side |
| `Handoff.OvertakesExactlyIfSet` | src/controlthread.cc:799-823 | without that block a fresh data thread can relay before the reset exactly when directionset was still 1 |
| `Handoff.SecondTransferCanOvertake` | src/controlthread.cc:2182-2219 | a run in which the second transfer relays with the first one's direction and no command of its own |
| `Handoff.QuitEndsTheWait` | src/datathread.cc:370-373 | after setQuit(1) a waiting data thread is done with its next quit test, at most two of its steps later |
| `Handoff.QuitEndsTheRelay` | src/datathread.cc:620-650 | after setQuit(1) a relaying thread copies at most the block that it has begun |
| `Locks.ScriptsAreDisciplined` | src/controlthread.cc:2298-2443 | every operation but the two early returns asks for locks in rising rank only, releases what it took, and joins with nothing held |
| `Locks.AsksExactly` | src/controlthread.cc:2298-2443 | which locks each operation asks for: the messages of a session its read-write lock, and inside it all five counters exactly where bytes of the client are counted; sockets, lists and address lists their own |
| `Locks.HandlerIsDisciplinedExactly` | src/yatb.cc:78-104 | the signal handler keeps the lock order of the thread that it interrupts if and only if that thread does not hold the config lock nor, if the configuration can be read, the lock of the address list |
| `Locks.StepKeepsInv` | src/controlthread.cc:188-217 | every step of every thread and every signal, but the moves that close circles, keeps the ownership of the locks and the discipline of what is still to do |
| `Locks.NoCircularWait` | src/yatb.cc:374 | no interleaving of main, traffic, control and data threads with any number of signals reaches a circular wait, joins included, without an early return of Write in a control thread or a signal whose handler asks its thread for a lock that it holds |
| `LockProgress.NeverStuck` | src/datathread.cc:177-179 | in all these runs, if no Write returns early, whenever a thread is in the middle of an operation some thread can go on |
| `LockProgress.EverybodyGetsOn` | src/controlthread.cc:188-217 | moreover every such thread can be brought to its own next step while the others only go on with what they are at, handlers and joins included |
| `LockProgress.CircleComesOfExactly` | src/yatb.cc:78-104 | for every state reached by such runs and every possible move: harmless moves can lead from there to a circular wait if and only if the move is an early return of Write in a control thread, or a signal for a thread with the config lock, or with the lock of the address list while the configuration can be read |
| `Locks.LocksHeldApart` | src/controlthread.cc:115-117 | list_lock, globals_lock and the read-write locks are never held together, are asked for with empty hands only, and a joining thread holds nothing, signals or not |
| `Locks.OnlyEarlyReturnsLeave` | src/controlthread.cc:2391-2421 | the two early returns of Write leave exactly the read-write lock held; nothing else leaves a lock held |
| `LockTraps.BlockedForEver` | src/controlthread.cc:201-206 | a join on a data thread that wants the joiner's read-write lock is a circular wait that no run resolves, whatever is signalled |
| `LockTraps.EarlyReturnBlocksJoin` | src/controlthread.cc:2391-2399 | a run from the start of the program into such a join |
| `LockTraps.EarlyReturnBlocksSession` | src/datathread.cc:289-292 | a run without circles in which a data thread keeps the lock of its session and the control thread waits for it in every continuation |
| `LockTraps.StuckForEver` | src/lock.cc:13-16 | a thread whose signal handler asks for a lock of its own stays there in every run and keeps all that it holds |
| `LockTraps.SignalBlocksMain` | src/iplist.cc:98-114 | a run in which the main thread is signalled in getip, and holds the connection list lock in every continuation |
| `Relays.SWrite` | src/datathread.cc:793-842 | the bytes that go out are a prefix of the buffer, all of it exactly on success, for any results of the socket |
| `Relays.SendingExactly` | src/datathread.cc:793-842 | `SWrite` call by call, from the results alone: it goes on exactly while bytes are left and no call has failed for good, TLS calls being made again while that is wanted and retries are left |
| `Relays.SendingFacts` | src/datathread.cc:793-842 | never more bytes than offered, and a bound on the calls from the two retry quantities |
| `Relays.SRead` | src/datathread.cc:844-896 | the buffer holds exactly what the first successful call read |
| `Relays.ReceivingExactly` | src/datathread.cc:844-896 | `SRead` call by call: a TLS call that wants to be made again is, up to retry_count times, no other is, and the last one gives what there is |
| `Relays.ReceivingFacts` | src/datathread.cc:844-896 | at most retry_count + 1 calls |
| `Relays.Pump` | src/datathread.cc:620-633 | one direction of the speed loop: for any socket results and any moment of quitting, it ends at exactly the turn that the results make it end at, with everything consumed and delivered that these say |
| `Relays.SpeedLoop` | src/datathread.cc:616-650 | the same for the direction asked for, the other one being untouched |
| `Relays.EndsOnce` | src/datathread.cc:620-633 | there is exactly one turn at which the loop can end |
| `Relays.WhyItEnds` | src/datathread.cc:620-633 | it ends early only for a quit, for a read that gave nothing and is not to be made again, or for a write that failed for good |
| `Relays.LosesOnlyAtFailure` | src/datathread.cc:620-633 | what is delivered is a prefix of what was consumed, all of it if and only if no write failed, and short of at most one buffer |
| `Relays.UndisturbedRelay` | src/datathread.cc:616-650 | without a quit, with reads that give something and writes that do not fail, n turns deliver exactly the n chunks read |
| `Relays.StepsReachTheEnd` | src/datathread.cc:801-840 | for a retry count of 0 or more the loop of SWrite ends within the bound |
| `Relays.NegativeRetryNeverEnds` | src/datathread.cc:822-831 | with a negative one it need not end |
| `Counters.Counter.AddSend` | src/counter.cc:14-19 | one side of one counter grows, the other stays |
| `Counters.Counter.AddRecvd` | src/counter.cc:21-26 | the same for the other side |
| `Counters.Counter.Reset` | src/counter.cc:28-34 | both sides are 0 |
| `Counters.Counter.GetTotal` | src/counter.cc:54-61 | the sum of both sides |
| `Counters.TrafficCheck` | src/controlthread.cc:2416-2420 | traffic is allowed exactly while every limit that is set exceeds its counter |
| `Counters.AccountConserves` | src/datathread.cc:755-783 | a single counter update of a half-accounted block keeps the balance |
| `Counters.RunConserves` | src/controlthread.cc:2408-2414 | in every state of every interleaving the total is the sum over all sessions minus what is counted locally but not yet in total, and day, week and month are what was added since their last reset |
| `Counters.QuietTotals` | src/controlthread.cc:2316-2322 | between whole updates the total is exactly the sum over all sessions ever created |
| `Calendars.TrafficThread.Pass` | src/yatb.cc:118-143 | one pass compares day name, day of month and month name with what it remembers and resets accordingly |
| `Calendars.SubstringsTellTheDate` | src/yatb.cc:122-124 | the substrings of asctime that are cut out determine weekday, month and day of the month |
| `Calendars.DecisionIsDue` | src/yatb.cc:126-143 | for samples less than a day apart the string comparisons reset the day counter on a new date, the week counter on a new Monday, the month counter on a new month, and nothing else |
| `Calendars.CountersFollowTheCalendar` | src/yatb.cc:106-149 | over any run of steady samples the three counters are the sums of the traffic whose date, week from Monday, or month is the present one |
| `Calendars.PeriodsAreNested` | src/yatb.cc:106-149 | day never exceeds week or month, and none exceeds the total |
| `Calendars.DayResetExactly` | src/yatb.cc:126-131 | for gaps of any length the day counter is reset unless the gap is a multiple of seven days |
| `Calendars.WeekResetExactly` | src/yatb.cc:132-137 | for gaps of any length the week counter is reset if and only if the pass is on the Monday of a later week that differs in its day of the month from the Monday of the last pass, or no Monday is remembered yet |
| `Calendars.MonthResetExactly` | src/yatb.cc:138-143 | for gaps of any length the month counter is reset unless the gap covers a multiple of twelve months |
| `StringLists.StringList.Ins` | src/stringlist.cc:26-32 | an entry is appended unless it is there |
| `StringLists.StringList.Del` | src/stringlist.cc:34-46 | the first such entry is erased |
| `StringLists.StringList.ParseString` | src/stringlist.cc:58-82 | every token between commas is inserted or deleted in order; the empty string has none |
| `StringLists.StringList.GetList` | src/stringlist.cc:84-96 | the entries joined with commas |
| `StringLists.InsertIsUnion` | src/stringlist.cc:48-51 | insertion keeps entries distinct, keeps the old ones in place, and gives the union with the tokens |
| `StringLists.RemoveIsDifference` | src/stringlist.cc:53-56 | removal keeps entries distinct and gives exactly the list without the tokens |
| `StringLists.HistoryKeepsLists` | src/stringlist.cc:26-82 | after any sequence of insertions and removals entries are distinct and comma-free and the set is what set algebra says |
| `StringLists.PrintParse` | src/stringlist.cc:58-96 | inserting a printed reachable list into an empty one restores it exactly unless it is the list of one empty entry |
| `IpLists.IpList.ReadList` | src/iplist.cc:48-96 | succeeds exactly for a non-empty list with as many ports or no port list, and pairs them in order |
| `IpLists.PortsInPlace` | src/iplist.cc:77-91 | each address gets the number printed at its own place in the port list, or 0 without one |
| `IpLists.IpList.GetIp` | src/iplist.cc:98-114 | hands out the entry at the counter and moves on, wrapping at the end |
| `IpLists.IpList.ServeAll` | src/iplist.cc:98-114 | after readlist of n entries the k-th call returns entry k mod n |
| `IpLists.WindowIsFair` | README.md:77-80 | in any window of calls two entries are handed out equally often, up to one |
| `IpLists.IpList.Use` | src/iplist.cc:48-114 | any program of readlist and getip calls whose getip calls are each covered by a successful readlist goes through, and ends in the list and place that its history says |
| `IpLists.SafeExactly` | src/yatb.cc:90 | after any history of readlist and getip the next getip finds an entry if and only if the latest readlist succeeded |
| `IpLists.AlwaysSafeExactly` | src/yatb.cc:456 | so no access goes beyond the list if and only if every getip of the history is covered in this way |
| `IpLists.BadReloadTakesAll` | src/yatb.cc:90 | after any history, a reload that names no address leaves none |
| `Whitelists.Whitelist.IsInList` | src/whitelist.cc:103-122 | an address is looked up in its stored form, hashed or not |
| `Whitelists.Whitelist.Insert` | src/whitelist.cc:179-220 | an unknown address with two commas is appended; the three result codes |
| `Whitelists.InsertTyped` | src/whitelist.cc:179-220 | a line "ip,comment,user" appends exactly these three, the address in its stored form, unless that is listed |
| `Whitelists.Whitelist.Insert_nokey` | src/whitelist.cc:222-248 | a line of the file is appended as it is |
| `Whitelists.LoadedAsItStands` | src/whitelist.cc:222-248 | a line of the file is stored as it stands, also behind an entry of the same address; it is left out only if the whole line is listed as an address |
| `Whitelists.Whitelist.Remove` | src/whitelist.cc:145-177 | the first entry with that address is erased; digests are taken as they are |
| `Whitelists.Whitelist.WriteList` | src/whitelist.cc:14-56 | the file holds one line per entry, encrypted when there is a key |
| `Whitelists.Whitelist.ReadList` | src/whitelist.cc:58-101 | every complete line of the file is inserted in order |
| `Whitelists.HistoryDistinct` | src/whitelist.cc:145-220 | after any sequence of insertions and removals, of any lines and with any digests, the addresses are pairwise distinct |
| `Whitelists.HistoryClean` | src/whitelist.cc:145-220 | with digests and lines free of separators every entry can be read back |
| `Whitelists.WriteThenRead` | src/whitelist.cc:14-101 | reading what was written restores the same entries in order, commas in the user included |
| `Whitelists.PlainHistoriesPersist` | src/whitelist.cc:14-248 | without hashing and encryption every reachable list survives the file with no further assumption |
| `ListFiles.ScanText` | src/whitelist.cc:80-99 | the reading loop gives back the lines that the writing loop printed |
| `FpWhitelists.FpWhitelist.CheckIp` | src/fpwhitelist.cc:14-46 | a new address is added to the first entry of its fingerprint and the list is saved; result code and message |
| `FpWhitelists.CheckedIpExactly` | src/fpwhitelist.cc:14-46 | the address, hashed if addresses are, is appended to the first entry of the fingerprint unless it is there; everything else stays |
| `FpWhitelists.FpWhitelist.Insert` | src/fpwhitelist.cc:197-264 | a fingerprint unknown as typed is appended in upper case with the addresses that a comma follows |
| `FpWhitelists.InsertTyped` | src/fpwhitelist.cc:197-264 | a line "fp,comment,user" appends exactly these three, the fingerprint in upper case, unless it is known as typed |
| `FpWhitelists.FpWhitelist.Remove` | src/fpwhitelist.cc:179-195 | the first entry of the fingerprint is erased |
| `FpWhitelists.RemoveFirst` | src/fpwhitelist.cc:179-195 | the first entry of the fingerprint goes and all others stay in place |
| `FpWhitelists.RemoveDistinct` | src/fpwhitelist.cc:179-195 | of distinct fingerprints exactly the others stay |
| `FpWhitelists.FpWhitelist.WriteList` | src/fpwhitelist.cc:48-102 | the file holds one line per entry, addresses joined with commas |
| `FpWhitelists.FpWhitelist.ReadList` | src/fpwhitelist.cc:104-147 | every complete line of the file goes through Insert |
| `FpWhitelists.CheckIpKeepsFingerprints` | src/fpwhitelist.cc:14-46 | CheckIp never changes which fingerprints are listed, nor their order |
| `FpWhitelists.CheckIpTwice` | src/fpwhitelist.cc:14-46 | a second check of the same address finds it |
| `FpWhitelists.InsertDistinctExactly` | src/fpwhitelist.cc:197-264 | an insertion keeps distinct fingerprints distinct exactly when the line is malformed, is known as typed, or is unknown in upper case |
| `FpWhitelists.LowerCaseTwice` | src/fpwhitelist.cc:197-215 | a fingerprint typed in lower case can be inserted twice |
| `FpWhitelists.WriteThenRead` | src/fpwhitelist.cc:48-147 | reading what was written keeps fingerprints, comments, users and order and drops exactly the last address of each entry |
| `FpWhitelists.RestartsForget` | src/fpwhitelist.cc:48-147 | k restarts leave of n addresses the first max(0, n - k) |
| `FpWhitelists.RestartAnnouncesAgain` | src/fpwhitelist.cc:14-46 | for any list and entry a listed address is announced as new after a restart exactly when it is the last of its fingerprint |
| `FpWhitelists.HistoryKeeps` | src/fpwhitelist.cc:14-264 | insertions of upper-case lines, removals and address checks lead only to the clean and distinct lists that the results on files are about |
| `Passive.ReplaceAll` | src/controlthread.cc:31-48 | the loop ends and replaces every occurrence |
| `Passive.CreatePsvCommand` | src/controlthread.cc:2238-2296 | which address is advertised, and the reply for it; none when it has fewer than three dots |
| `Passive.AdvertisedInOrder` | src/controlthread.cc:2238-2296 | the resolved NAT name is preferred to the address for listening, that to the address of the interface, and that to four zeros; the reply spells its four octets and the port, quotient and remainder by 256 |
| `Passive.ReplaceTimesExactly` | src/controlthread.cc:2278-2285 | there is a reply if and only if the address has at least three dots, and each replacement takes one |
| `Passive.PsvRoundTrip` | src/controlthread.cc:2280-2290 | for any dotted quad and any port the decoder recovers address and port from the reply |
| `Passive.SixTextsDecoded` | src/controlthread.cc:788 | any six texts between the parentheses are decoded, the first four as the address and the last two as the port, if and only if neither text of the port is empty |
| `Passive.PortRoundTrip` | src/controlthread.cc:844-848 | the parser of PORT commands recovers address and port from any command in the form of RFC 959 |
| `Passive.PortTextsDecoded` | src/controlthread.cc:844 | the same for a PORT command |
| `Passive.QuadReplaced` | src/controlthread.cc:2278-2285 | on dotted quads replaceall and the three single replacements agree |
| `Passive.GuardExact` | src/controlthread.cc:2391-2399 | a 227 reply contains the guarded text exactly when the first three octets agree and the site's last octet is a textual prefix of the advertised one |
| `Configs.Config.GetEntry` | src/config.cc:160-205 | a field gets its value of its own kind or keeps its default, which clears the flag |
| `Configs.Config.ReadConf` | src/config.cc:244-365 | all fields are looked up one after the other |
| `Configs.LookupFindsFirstEnding` | src/config.cc:135-158 | what the text search finds in any file of such lines: the first line whose key ends in the name decides |
| `Configs.LookupIsMeaningExactly` | src/config.cc:135-158 | first-occurrence search agrees with the meaning of the lines exactly when that first line has the wanted key or the same value |
| `Configs.LookupIsMeaning` | src/config.cc:135-158 | hence it always does for keys of which none ends in another, in any order, a key first mentioned behind '#' included |
| `Configs.ConfigRoundTrip` | src/config.cc:135-205 | a set key gets its value and a missing or disabled one keeps its default |
| `Configs.FieldsFromText` | src/config.cc:160-205 | a set text field gets the text and a set integer field the number that is printed there |
| `Configs.EachKeyItsOwnValue` | src/config.cc:135-158 | with distinct keys the order of lines does not matter |
| `Configs.SuffixMisleads` | src/config.cc:135-158 | in any file, a line whose key ends in the name and that comes before every line of that key answers for it |
| `ConfigKeys.KeysAreSuffixFree` | src/config.cc:244-365 | none of the 98 keys that readconf asks for ends in another |
| `ConfigKeys.KeysAreLookedUp` | src/config.cc:244-365 | for any file made of settings for these keys, in any order, each of them gets what the file says or keeps its default |

## Left out

- Relays.SWrite: takes a retry count of 0 or more; a negative one is covered by `Relays.StepsReachTheEnd` and `Relays.NegativeRetryNeverEnds`, because the loop need not end then.
- Relays.SRead: takes a retry count of 0 or more, for the same reason.
- Relays.Pump: looks at a run of any given number of turns, because the loop of the source has no bound of its own.
- Passive.ReplaceAll: replaces a single character that does not occur in its replacement, which is the one use in the source; other arguments may loop for ever there.
- Whitelists.Whitelist.ReadList: files with a NUL byte are excluded, because the source then reads beyond the end of its string.
- FpWhitelists.FpWhitelist.ReadList: the same.
- The help, info and traffic texts and the printed whitelists are inputs of a session; the list file that is written after a change is modelled in the whitelist modules only.
- During a run the configuration of a session stays fixed, but for the lists and the hashing of addresses; what new settings do to the transfer policy is `SessionLists.ReloadTakesNothingAway`.
- Replies of data threads come into a session as texts of any content, between two of its steps; which texts a data thread makes up is `DataThread.dfy`.
- SIGHUP is modelled in what it does to the locks. That its handler also replaces the configuration and extends the lists in the middle of an operation is not; between the steps of a session other sessions may edit the lists.
- Sockets, `select`, OpenSSL, `pthread_create` and the outcome of `pthread_join`: results that come in from outside.
- The main loop's preamble (entry list, ident, connecting to the site, IDNT, the first welcome): inputs and outputs only.
- The kill command, which ends the process.
- Telling apart FTP commands and site replies by their characters (`upper(s, n).find(..)`, `IsEndline`, `FtpCode`): messages and lines come in already told apart.
- 32-bit overflow of `atoi` and of ports: numbers are unbounded.
- Bytes are counted in natural numbers, not in `double`. The speed loop calls no counter (`src/datathread.cc:616-650`), so no accounting task stands for it.
- `atof` for the three limits: the text is kept.
- The relay without `speed_write` (`DataRead`, `DataWrite`, ascii translation): only its calls of the counters, in the conservation of bytes.
- Races inside one operation on a shared list: the lists are values that other sessions may change between the steps of a session.
- Syslog, debug files, forwarder, ident replies, uptime, `src/tls.cc`, `src/blowcrypt.cc`, `src/bnccheck.cc`, `src/getfp.cc`, `src/forward.cc` and the unused `src/fxpiplist.cc`.
