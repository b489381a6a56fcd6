# Verdeckt — the round and voting state machine, in Dafny

Verdeckt is a browser party game ("Undercover") for three or more players on
separate devices. One device is the **host**: it keeps the roster, deals the
roles (one player is secretly *undercover* and sees a different word from the
shared word pair), runs the discussion countdown, collects the votes and
decides who is eliminated and whether the round is over. The other devices
are **clients**: they join with the host's id, introduce themselves, and
mirror whatever the host pushes (`player-list`, `start`, `vote-start`,
`elimination`, `game-end`). Everything lives in `src/main.ts`.

This project models that state machine and proves what it does. The module
state of `src/main.ts` (`players`, `connections`, `eliminatedIds`,
`voteCounts`, `votesCast`, `votedTarget`, `remainingTime`, `currentPair`,
`myInfo`) is the class `Game.Session`, and every handler is a method on it.
Side effects become state:

- a message put on a connection is appended to `outbox`;
- the one-second `setInterval` countdown is the flag `timerActive` plus one
  `Tick` call per callback;
- every `Math.random()` is a parameter `rnd` in [0, 1). `Chance.Pick`
  computes the source's `Math.floor(rnd * n)` from it.

Modules:

| file | module | contents |
|---|---|---|
| protocol.dfy | `Protocol` | players, word pairs, the tagged message union, `isMessage` |
| chance.dfy | `Chance` | the index a random draw selects |
| roster.dfy | `Roster` | the ordered roster: lookup, removal, role dealing |
| votes.dfy | `Votes` | the vote tally (an insertion-ordered map), maximum, tie-break |
| clock.dfy | `Clock` | `formatTime` and its read-back |
| onboarding.dfy | `Onboarding` | `trim`, the name check, the join-code checks |
| game.dfy | `Game` | `Session`: host and client handlers; the end-of-vote decision |
| scenarios.dfy | `Scenarios` | concrete three-player sessions driven through the handlers |

The model reproduces these behaviours of the code as they are:

- **The host's own vote is never counted.** `vote` adds the host's id to
  `votesCast` before calling `recordVote`, and `recordVote` then returns at
  once. If the host votes last, everybody has voted, yet the vote never ends
  (`Scenarios.HostVotingLastStalls`).
- **Eliminated voters are not refused.** `recordVote` checks only
  `votesCast`; it does not check whether the voter was eliminated.
- **Missing players can make `endVoting` throw.** It dereferences the
  `find(...)!` results. If the eliminated id is no longer in the roster,
  because that device disconnected mid-round, reading its role throws a
  TypeError every time (`Game.UnknownTargetThrows`). A missing undercover
  matters only when the round ends: its name is read only in the two
  branches that announce a winner. If two or fewer players survive, the
  handler throws (`Game.VanishedUndercoverThrows`); with more survivors the
  round simply continues. After a throw the countdown is stopped and the id
  is already in `eliminatedIds`. This is the verdict `Thrown`.
- **Ties depend on vote order.** The tie-break draws from the tied targets
  in the order their first votes arrived (`Votes.LeadersInVoteOrder`). That
  is the insertion order of the JavaScript object `voteCounts`, which is why
  the tally is an association list.
- **The client countdown does not resume.** After an elimination only the
  host's countdown resumes; a client's stays stopped.

In a three-player round, the host's vote and one client's vote for the same
player do not by themselves resolve the vote. After them `votesCast` holds
two ids out of three, so the threshold is not reached, and the host's vote
is not in the tally anyway (`Scenarios.HostVoteIsNotCounted`). The vote
resolves only when the third player votes. If that vote creates a tie, the
draw decides it (`Scenarios.TieFallsOnUndercover`,
`Scenarios.TieFallsOnNormal`). The model follows the code here.

## Model

| member | source | states |
|---|---|---|
| Protocol.IsMessage | src/main.ts:12-14 | a datum is a message exactly when it is an object carrying a `type` tag; `null` is refused although `typeof null` is "object" |
| Chance.Pick | src/main.ts:124 | `Math.floor(rnd * n)` is a valid index below `n` for every draw in [0, 1) |
| Chance.PickReaches | src/main.ts:137 | with exact real arithmetic every index below `n` is produced by some draw (the draw `i / n`) |
| Chance.PickInterval | src/main.ts:124 | with exact real arithmetic the draws selecting index `i` are exactly those in [i/n, (i+1)/n), an interval of the same width for every candidate |
| Roster.Entries | src/main.ts:116-119 | the `player-list` payload has one `{id, name}` per player, position by position |
| Roster.AsNormal | src/main.ts:433 | a client's roster from `player-list` keeps order, ids and names, with every role normal |
| Roster.WithoutPlayer | src/main.ts:399 | the filtered roster is no longer than before and holds nobody with the removed id; `WithoutPlayerMembers` and `WithoutPlayerCutsOne` state exactly what remains |
| Roster.WithoutEntry | src/main.ts:398 | the filtered connection list is no longer than before and no longer lists the removed id; `EntriesWithout` keeps it in step with the roster |
| Roster.FindById | src/main.ts:439 | `find` by id is undefined exactly when no player has the id, otherwise it returns a roster member with that id |
| Roster.FindUndercover | src/main.ts:258 | `find` by role is undefined exactly when nobody is undercover, otherwise it returns an undercover roster member |
| Roster.AssignRoles | src/main.ts:136-139 | the roster keeps its length, ids and names, and exactly the player at `ucIdx` holds the undercover role; `AssignRolesExactlyOne` counts one undercover |
| Roster.AssignRolesExactlyOne | src/main.ts:136-139 | after dealing, the player at `ucIdx` is undercover and every other one normal: exactly one undercover; ids, names and order unchanged |
| Roster.WithoutPlayerMembers | src/main.ts:399 | filtering by id keeps exactly the players with a different id |
| Roster.WithoutAbsentPlayer | src/main.ts:399 | filtering by an id nobody holds changes nothing |
| Roster.WithoutPlayerCutsOne | src/main.ts:399 | with distinct ids, removing the id of the player at `k` cuts out exactly position `k`; the rest keep their order |
| Roster.WithoutKeepsDistinct | src/main.ts:399 | removal keeps ids distinct |
| Roster.WithoutKeepsUndercoverCount | src/main.ts:399 | removal never adds an undercover |
| Roster.EntriesWithout | src/main.ts:398-399 | filtering `players` and `connections` by the same id keeps the two lists in step |
| Roster.FindByIdAt | src/main.ts:257 | with distinct ids, `find` by id returns the one player holding it |
| Roster.FindUndercoverAt | src/main.ts:258 | with at most one undercover, `find` by role returns that player |
| Votes.VotesFor | src/main.ts:215 | `voteCounts[t] \|\| 0` is 0 for a target without votes and otherwise the count stored with `t` |
| Votes.Increment | src/main.ts:215 | `voteCounts[t] = (voteCounts[t] \|\| 0) + 1` raises the count of `t` by exactly one (absent counts as 0) and leaves every other count as it was |
| Votes.IncrementKeepsOrder | src/main.ts:215 | an existing key keeps its place; a new key is added at the end (object insertion order) |
| Votes.IncrementWellFormed | src/main.ts:215 | no key ever appears twice in the tally |
| Votes.MaxVotes | src/main.ts:252 | `Math.max` over the counts bounds every count and is attained |
| Votes.WithVotes | src/main.ts:253 | the filtered keys are exactly the targets holding the given count |
| Votes.Leaders | src/main.ts:253 | `top` is never empty and holds exactly the targets with the maximal count |
| Votes.WithVotesAppend | src/main.ts:253 | the filter of a concatenated tally is the concatenation of the filters: `filter` keeps tally order |
| Votes.LeadersInVoteOrder | src/main.ts:253 | of two tied leaders, the one entered first in `voteCounts` stands first in `top` |
| Votes.TieBreak | src/main.ts:254 | the eliminated id is one of `top` and holds the maximal count |
| Votes.TieBreakIsMaximal | src/main.ts:252-254 | the eliminated target has at least as many votes as every target in the tally |
| Votes.TieBreakReachesEveryLeader | src/main.ts:254 | every tied candidate is eliminated by some draw |
| Votes.TieAmongTwoLeaders | src/main.ts:252-254 | a tally A:2, B:2, C:1 eliminates A or B, never C |
| Clock.Decimal | src/main.ts:17 | `String(n)` of a non-negative integer is a non-empty digit string with one digit exactly when `n < 10` and no leading zero; `ValueOfDecimal` reads it back as `n` |
| Clock.FormatTime | src/main.ts:16-20 | the display is at least five characters; for a non-negative count it is digits, a colon, and two digits, the minutes field reading as `sec / 60` and the seconds field as `sec % 60`, below 60; `FormatTimeRoundTrip`, `FormatTimeWidth` and `FormatTimePastZero` build on it |
| Clock.FormatTimeRoundTrip | src/main.ts:16-20 | for every non-negative count, the `mm:ss` display reads back as that count |
| Clock.FormatTimeWidth | src/main.ts:16-20 | below 100 minutes the display is exactly five characters with the colon at index 2 |
| Clock.FormatTimePastZero | src/main.ts:16-20 | one second past zero the display shows "-1:-1" (floored minutes, truncated seconds) |
| Onboarding.TrimStart | src/main.ts:349 | leading whitespace removed: the result is a suffix, every removed character is whitespace, and it starts with a non-space |
| Onboarding.TrimEnd | src/main.ts:349 | trailing whitespace removed: the result is a prefix, every removed character is whitespace, and it ends with a non-space |
| Onboarding.Trim | src/main.ts:349 | `trim` returns the slice of the input between its leading and trailing whitespace; it is empty exactly for an all-blank input and otherwise starts and ends with a non-space |
| Onboarding.CheckName | src/main.ts:348-353 | the name is refused exactly when it is all whitespace; otherwise the trimmed, non-empty name is taken |
| Onboarding.CheckJoin | src/main.ts:424-426 | a blank code is refused; otherwise a code equal to the own id is refused; otherwise the connection goes to the trimmed code, which is non-empty and not the own id |
| Game.Judge | src/main.ts:257-306 | the ordered three-way decision of `endVoting`: a winner is always the undercover player from the roster; the normals win only when the eliminated player is undercover; the round continues exactly when a normal player is out and more than two survive; the handler throws exactly when the eliminated id is absent, or when the round would end with no undercover left. `CaughtUndercoverEndsRound`, `LastTwoUndercoverWins`, `NormalOutRoundContinues`, `UnknownTargetThrows` and `VanishedUndercoverThrows` state each case |
| Game.CaughtUndercoverEndsRound | src/main.ts:257-269 | eliminating the undercover ends the round with the normals' win, naming that player, however many survive |
| Game.LastTwoUndercoverWins | src/main.ts:271-279 | eliminating a normal player down to two survivors ends the round with the undercover's win, naming the undercover |
| Game.NormalOutRoundContinues | src/main.ts:281-290 | eliminating a normal player with more than two survivors continues the round |
| Game.UnknownTargetThrows | src/main.ts:257-262 | an eliminated id no longer in the roster makes the handler throw |
| Game.VanishedUndercoverThrows | src/main.ts:258-273 | with the undercover gone, reaching two survivors throws instead of declaring a winner |
| Game.IntroKeepsRoster | src/main.ts:388-391 | registering a new peer keeps the registry invariant: host first, then the peers in connection order, distinct ids, at most one undercover |
| Game.RemovalKeepsRoster | src/main.ts:397-399 | removing a peer keeps the registry invariant |
| Game.DealtRosterValid | src/main.ts:136-139 | dealing roles keeps the registry invariant, with exactly one undercover |
| Game.Session.Host | src/main.ts:380 | a new host is alone in its roster as a normal player, with no round state |
| Game.Session.Joiner | src/main.ts:417-419 | a new client has no roster, no connections and no host |
| Game.Session.Broadcast | src/main.ts:145-147 | one copy of the message to every registered connection, in registration order |
| Game.Session.ShowGameScreen | src/main.ts:158-177 | without `myInfo` the screen is not shown (the handler throws); otherwise the countdown restarts at one minute per player |
| Game.Session.BeginVote | src/main.ts:203-210 | the countdown stops, votes, tally and own choice are cleared, the list becomes votable |
| Game.Session.ShowEnd | src/main.ts:311-318 | the end message replaces the game view |
| Game.Session.Tick | src/main.ts:179-189 | one second passes; on the host, reaching zero opens the vote and sends `vote-start` to every client |
| Game.Session.Stop | src/main.ts:193-201 | the host opens the vote early and tells every client; on a client nothing changes |
| Game.Session.PeerConnected | src/main.ts:385 | a newly opened connection is asked for its name |
| Game.Session.AcceptIntro | src/main.ts:388-392 | a duplicate `intro` changes nothing; a new peer is appended to `connections` and to `players` as normal, and the roster goes to every client |
| Game.Session.RemovePeer | src/main.ts:397-400 | a closed connection removes exactly that peer from both lists, keeps the registry invariant, and sends the roster |
| Game.Session.DealRoles | src/main.ts:136-139 | the role loop leaves exactly the roster `AssignRoles` specifies |
| Game.Session.StartRound | src/main.ts:128-156 | round state cleared, roles dealt with one undercover, the drawn pair and roster sent to every client, the host's own entry found, the countdown started |
| Game.Session.ResetRound | src/main.ts:129-132 | eliminations, voters, tally and own choice are cleared |
| Game.Session.Publish | src/main.ts:141-150 | the pair is set and sent with the roster to every client; the host finds itself at the head of the roster |
| Game.Session.TryStartGame | src/main.ts:404-410 | a round starts exactly when at least three players are registered; otherwise nothing changes |
| Game.Session.Restart | src/main.ts:411-414 | a new round starts with no player-count check |
| Game.Session.EndVoting | src/main.ts:248-307 | the eliminated id is the drawn leader of the tally and is appended to `eliminatedIds`; the verdict is the ordered decision `Judge`; a win is broadcast and shown with the votes kept; a continuing round clears the vote state, broadcasts the elimination and resumes the countdown from the time left |
| Game.Session.CarryOut | src/main.ts:262-306 | each verdict's effects: win messages, the continuation, or nothing after a throw |
| Game.Session.AnnounceEnd | src/main.ts:263-267 | the end message goes to every client and is shown on the host |
| Game.Session.RecordVote | src/main.ts:212-220 | a repeated voter changes nothing; otherwise the voter is recorded and only the target's count rises by one; the vote resolves exactly when the voters reach the number of non-eliminated players |
| Game.Session.HostReceive | src/main.ts:386-396 | non-messages and unknown types are ignored; `intro` and `vote` are handled as above |
| Game.Session.Vote | src/main.ts:320-331 | nothing happens for a device that voted or was eliminated; otherwise it is marked as voted; a client sends its vote to the host; on the host the tally stays unchanged |
| Game.Session.DoJoin | src/main.ts:423-427 | the code checks, in order; the host address is set only when both pass |
| Game.Session.JoinOpened | src/main.ts:428 | the client introduces itself to the host by name |
| Game.Session.ApplyStart | src/main.ts:436-442 | a client takes over roster and pair, looks itself up, clears the round state and shows the game screen if found |
| Game.Session.HandleMessage | src/main.ts:429-454 | each of the five host message types updates the mirror as the handler does; anything else changes nothing |
| Scenarios.HostVoteIsNotCounted | src/main.ts:320-327 | after the host's vote the tally is still empty, and a client's vote after it leaves the vote open |
| Scenarios.HostVotingLastStalls | src/main.ts:212-219 | when the host votes last, all three have voted, nobody is eliminated and the countdown is off |
| Scenarios.TieBetweenBenAndCem | src/main.ts:252-254 | in a one-one tie a draw below one half picks the first-voted target, any other draw the second |
| Scenarios.TieFallsOnUndercover | src/main.ts:262-268 | the undercover is eliminated and the normals' win is shown with the exact message |
| Scenarios.TieFallsOnNormal | src/main.ts:272-278 | a normal player is eliminated, two survive, and the undercover's win is shown with the exact message |
| Scenarios.PaddedCodeTrims | src/main.ts:424-426 | a join code pasted with blank padding still connects to the host |
| Scenarios.ClientMirrorsStart | src/main.ts:428-444 | a client introduces itself, finds its role in the start snapshot and sends its vote to the host |
| Scenarios.Lobby | src/main.ts:385-391 | the outbox holds exactly five messages: each newcomer is asked for its name, and every registered client gets each new roster, in order |

## Left out

- DOM rendering (`renderList`, the text parts of `showGameScreen` and `showEnd`, button visibility, `alert`) is UI only. `phase` records only what the game list was last rendered as. `Vote` accepts any target, whereas the UI offers only non-eliminated players other than oneself.
- The PeerJS transport is left out. Sending is an append to `outbox`; delivery, ordering between devices and connection failures are not modelled. Every registered connection is taken to be open, so the `conn.open` test always passes. The transport never reports a device's own id as a remote peer, so the host handlers require `peerId != myId`.
- A `vote` message is recorded under the `voterId` it carries; that field is not checked against the sending connection, in the model as in the code.
- `setInterval` and `clearInterval` scheduling: one callback is one `Tick`. Every `setInterval` in the code is preceded by a `clearInterval`, so at most one countdown runs.
- Draws and products are exact reals, not IEEE doubles: `Math.floor(Math.random() * n)` is computed exactly, so the edges of each candidate's interval of draws may differ from the program's by one rounding step, and the draw `i / n` itself may select a neighbouring index in doubles. Which indices are reachable is the same.
- `Math.random` is a parameter. The start-player pick at src/main.ts:151 only sets display text and is not modelled.
- The clipboard and URL helpers and the invite link (src/main.ts:8-10, 22-36, 366-379) are browser APIs. The auto-join through `?host=` calls the same `doJoin`.
- The word-pair catalog in src/data/wordpairs.ts is static data; it is a non-empty parameter of `StartRound`.
- dist/main.js is an older compiled build that differs from src/main.ts and is not part of this model.
- `EndVoting` requires a non-empty tally: it is called only from `recordVote`, right after an increment, so `Math.max` of no values never occurs.
- JavaScript lists integer-like object keys before all others, in ascending order; the tally keeps plain insertion order. Peer ids are not integer-like. Prototype keys such as `__proto__` are not modelled.
- Payloads are taken to be well-formed (`as` casts in the code are unchecked): a `start` carries a roster and a pair, a `vote` two ids. A tagged object of another type is `Other`.
- A client whose host connection closes shows an alert and reloads the page (src/main.ts:455-458); that starts the device over and is not modelled.
- A second `doJoin` opens a second connection whose handlers stay live; the model keeps one host address.
- Strings are sequences of characters; `trim` removes the ECMAScript whitespace and line-terminator set; nothing else about Unicode is modelled.
- `remainingTime` is an unbounded integer; the JavaScript number it stands for is exact over any reachable range.
- When `showGameScreen` throws for a missing `myInfo`, the view switches it performs before the throw are not modelled.
