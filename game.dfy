/** The session state of src/main.ts (lines 72-85) and the handlers that
    change it, for both sides: the host, which owns the canonical round and
    vote state, and a client, which mirrors what the host pushes. Every
    handler runs to completion, so each one is a method of `Session`.

    Side effects appear as state: a message put on the wire is appended to
    `outbox`; the one-second countdown is the flag `timerActive` plus one
    `Tick` per callback; each `Math.random()` is a parameter `rnd` in [0, 1). */
module Game {
  import opened Protocol
  import opened Roster
  import opened Votes
  import opened Chance
  import opened Onboarding

  /** What the in-game player list was last rendered as: not yet shown,
      shown for discussion, shown with votable entries, or replaced by an end
      message (`showEnd`). */
  datatype Phase = Lobby | Discussion | Voting | Ended(message: string)

  /** How `endVoting` concludes after the elimination. `Thrown` is the
      TypeError raised when a `find(...)!` lookup comes back undefined and the
      result is dereferenced: the handler stops where it is. */
  datatype Verdict =
    | NormalsWin(undercover: Player)
    | UndercoverWins(undercover: Player)
    | Continue
    | Thrown

  /** What one `recordVote` call did. */
  datatype VoteOutcome = AlreadyVoted | Counted | Resolved(elim: string, verdict: Verdict)

  function NormalsWinText(name: string): string
  {
    "Die normalen Spieler haben gewonnen! Undercover war " + name + "."
  }

  function UndercoverWinsText(name: string): string
  {
    "Der Undercover hat gewonnen! Undercover war " + name + "."
  }

  /** The `game-end` text of a terminal verdict. */
  function EndMessage(v: Verdict): string
    requires v.NormalsWin? || v.UndercoverWins?
  {
    if v.NormalsWin? then NormalsWinText(v.undercover.name) else UndercoverWinsText(v.undercover.name)
  }

  /** One message to every registered connection, in registration order. */
  function Sends(cs: seq<Entry>, m: Message): seq<Outgoing>
  {
    if cs == [] then [] else [Outgoing(cs[0].id, m)] + Sends(cs[1..], m)
  }

  /** The terminal decision of `endVoting` (src/main.ts:257-306), taken after
      `elim` has been appended to `eliminated`, in the source's order: the
      eliminated player is undercover; else at most two survivors; else the
      round goes on. A winner is always named after the undercover player;
      the handler throws exactly when the eliminated id has left the roster,
      or when the round would end with the undercover gone. */
  function Judge(ps: seq<Player>, eliminated: seq<string>, elim: string): (v: Verdict)
    ensures v.NormalsWin? || v.UndercoverWins? ==> v.undercover in ps && v.undercover.role == Undercover
    ensures v.NormalsWin? ==> FindById(ps, elim).Some? && FindById(ps, elim).value.role == Undercover
    ensures v.UndercoverWins? ==>
              FindById(ps, elim).Some? && FindById(ps, elim).value.role == Normal && |ps| - |eliminated| <= 2
    ensures v.Continue? <==>
              FindById(ps, elim).Some? && FindById(ps, elim).value.role == Normal && |ps| - |eliminated| > 2
    ensures v.Thrown? <==>
              (forall i :: 0 <= i < |ps| ==> ps[i].id != elim)
              || (FindById(ps, elim).Some? && FindById(ps, elim).value.role == Normal
                  && |ps| - |eliminated| <= 2 && forall i :: 0 <= i < |ps| ==> ps[i].role != Undercover)
  {
    match FindById(ps, elim)
    case None => Thrown
    case Some(e) =>
      var uc := FindUndercover(ps);
      if e.role == Undercover then NormalsWin(uc.value)
      else if |ps| - |eliminated| <= 2 then (if uc.Some? then UndercoverWins(uc.value) else Thrown)
      else Continue
  }

  /** Eliminating the undercover ends the round with the normals' win, naming
      the eliminated player, however many players survive. */
  lemma CaughtUndercoverEndsRound(ps: seq<Player>, eliminated: seq<string>, k: nat)
    requires DistinctIds(ps) && UndercoverCount(ps) <= 1
    requires k < |ps| && ps[k].role == Undercover
    ensures Judge(ps, eliminated, ps[k].id) == NormalsWin(ps[k])
    ensures EndMessage(Judge(ps, eliminated, ps[k].id)) == NormalsWinText(ps[k].name)
  {
    FindByIdAt(ps, k);
    FindUndercoverAt(ps, k);
  }

  /** Eliminating a normal player down to two survivors ends the round with
      the undercover's win, naming the undercover, whatever the tally was. */
  lemma LastTwoUndercoverWins(ps: seq<Player>, eliminated: seq<string>, k: nat, u: nat)
    requires DistinctIds(ps) && UndercoverCount(ps) <= 1
    requires k < |ps| && ps[k].role == Normal
    requires u < |ps| && ps[u].role == Undercover
    requires |ps| - |eliminated| <= 2
    ensures Judge(ps, eliminated, ps[k].id) == UndercoverWins(ps[u])
    ensures EndMessage(Judge(ps, eliminated, ps[k].id)) == UndercoverWinsText(ps[u].name)
  {
    FindByIdAt(ps, k);
    FindUndercoverAt(ps, u);
  }

  /** Eliminating a normal player with more than two survivors continues the
      round. */
  lemma NormalOutRoundContinues(ps: seq<Player>, eliminated: seq<string>, k: nat)
    requires DistinctIds(ps) && k < |ps| && ps[k].role == Normal
    requires |ps| - |eliminated| > 2
    ensures Judge(ps, eliminated, ps[k].id) == Continue
  {
    FindByIdAt(ps, k);
  }

  /** A target no longer in the roster (its peer disconnected) makes
      `eliminatedPlayer.role` throw. */
  lemma UnknownTargetThrows(ps: seq<Player>, eliminated: seq<string>, elim: string)
    requires forall i :: 0 <= i < |ps| ==> ps[i].id != elim
    ensures Judge(ps, eliminated, elim) == Thrown
  {
  }

  /** Once the undercover has disconnected, reaching two survivors makes
      `undercoverPlayer.name` throw instead of declaring a winner. */
  lemma VanishedUndercoverThrows(ps: seq<Player>, eliminated: seq<string>, k: nat)
    requires DistinctIds(ps) && k < |ps| && ps[k].role == Normal
    requires forall i :: 0 <= i < |ps| ==> ps[i].role == Normal
    requires |ps| - |eliminated| <= 2
    ensures Judge(ps, eliminated, ps[k].id) == Thrown
  {
    FindByIdAt(ps, k);
  }

  /** The host's registry invariant: the roster is the host itself followed
      by the introduced peers in the order of `cs`, ids are distinct and at
      most one player is undercover. */
  ghost predicate HostRosterOf(ps: seq<Player>, cs: seq<Entry>, id: string, name: string)
  {
    && |ps| >= 1
    && ps[0].id == id && ps[0].name == name
    && Entries(ps[1..]) == cs
    && DistinctIds(ps)
    && UndercoverCount(ps) <= 1
  }

  /** Registering a peer that is not yet listed, as a normal player at the
      end of both lists, keeps the registry invariant. */
  lemma IntroKeepsRoster(ps: seq<Player>, cs: seq<Entry>, id: string, name: string, peerId: string, peerName: string)
    requires HostRosterOf(ps, cs, id, name)
    requires peerId != id && !Listed(cs, peerId)
    ensures HostRosterOf(ps + [Player(peerId, peerName, Normal)], cs + [Entry(peerId, peerName)], id, name)
  {
    var p := Player(peerId, peerName, Normal);
    var qs := ps + [p];
    forall i | 1 <= i < |ps| ensures ps[i].id != peerId {
      assert cs[i - 1] == Entry(ps[i].id, ps[i].name);
    }
    forall i, j | 0 <= i < j < |qs| ensures qs[i].id != qs[j].id {
      if j < |ps| {
        assert qs[i] == ps[i] && qs[j] == ps[j];
      }
    }
    EntriesAppend(ps[1..], [p]);
    UndercoverCountAppend(ps, [p]);
    assert qs[1..] == ps[1..] + [p];
  }

  /** Filtering a peer other than the host out of both lists keeps the
      registry invariant. */
  lemma RemovalKeepsRoster(ps: seq<Player>, cs: seq<Entry>, id: string, name: string, peerId: string)
    requires HostRosterOf(ps, cs, id, name) && peerId != id
    ensures HostRosterOf(WithoutPlayer(ps, peerId), WithoutEntry(cs, peerId), id, name)
  {
    var rest := WithoutPlayer(ps[1..], peerId);
    assert ps == [ps[0]] + ps[1..];
    assert WithoutPlayer(ps, peerId) == [ps[0]] + rest;
    assert WithoutPlayer(ps, peerId)[1..] == rest;
    EntriesWithout(ps[1..], peerId);
    WithoutKeepsDistinct(ps, peerId);
    WithoutKeepsUndercoverCount(ps, peerId);
  }

  /** Dealing roles keeps the registry invariant, with exactly one
      undercover. */
  lemma DealtRosterValid(ps: seq<Player>, cs: seq<Entry>, id: string, name: string, uc: nat)
    requires HostRosterOf(ps, cs, id, name) && uc < |ps|
    ensures HostRosterOf(AssignRoles(ps, uc), cs, id, name)
    ensures UndercoverCount(AssignRoles(ps, uc)) == 1
  {
    var all := AssignRoles(ps, uc);
    AssignRolesExactlyOne(ps, uc);
    assert Entries(all[1..]) == Entries(ps[1..]);
  }

  class Session {
    const isHost: bool
    /** `peer.id`, the address of this device. */
    const myId: string
    const myName: string

    /** Host: one entry per introduced peer, in arrival order. */
    var connections: seq<Entry>
    var players: seq<Player>
    var eliminatedIds: seq<string>
    var voteCounts: Tally
    var votesCast: set<string>
    var votedTarget: Option<string>
    var remainingTime: int
    var timerActive: bool
    var currentPair: Option<WordPair>
    var myInfo: Option<Player>
    /** Client: the address its connection `myConn` was opened to. */
    var hostId: Option<string>
    var phase: Phase
    var outbox: seq<Outgoing>

    /** On the host the roster is the host itself followed by the
        introduced peers, in the order of `connections`; ids are distinct
        and at most one player is undercover. A client has no connections. */
    ghost predicate Valid()
      reads this`voteCounts, this`players, this`connections
    {
      && WellFormed(voteCounts)
      && (isHost ==> HostRoster())
      && (!isHost ==> connections == [])
    }

    ghost predicate HostRoster()
      reads this`players, this`connections
    {
      HostRosterOf(players, connections, myId, myName)
    }

    /** The state `beginVote` leaves: timer stopped, vote state cleared,
        list votable. */
    predicate VoteBegun()
      reads this`timerActive, this`votesCast, this`voteCounts, this`votedTarget, this`phase
    {
      !timerActive && votesCast == {} && voteCounts == [] && votedTarget == None && phase == Voting
    }

    twostate predicate SameRoster()
      reads this
    {
      connections == old(connections) && players == old(players)
    }

    twostate predicate SameRound()
      reads this
    {
      currentPair == old(currentPair) && myInfo == old(myInfo) && eliminatedIds == old(eliminatedIds)
    }

    twostate predicate SameVotes()
      reads this
    {
      votesCast == old(votesCast) && voteCounts == old(voteCounts) && votedTarget == old(votedTarget)
    }

    twostate predicate SameScreen()
      reads this
    {
      phase == old(phase) && remainingTime == old(remainingTime) && timerActive == old(timerActive)
    }

    /** The host after its peer opened: alone in the roster (src/main.ts:380). */
    constructor Host(id: string, name: string)
      ensures Valid() && isHost && myId == id && myName == name
      ensures players == [Player(id, name, Normal)] && connections == []
      ensures eliminatedIds == [] && voteCounts == [] && votesCast == {} && votedTarget == None
      ensures remainingTime == 0 && !timerActive && currentPair == None && myInfo == None
      ensures hostId == None && phase == Lobby && outbox == []
    {
      isHost, myId, myName := true, id, name;
      connections, players := [], [Player(id, name, Normal)];
      eliminatedIds, voteCounts, votesCast, votedTarget := [], [], {}, None;
      remainingTime, timerActive, currentPair, myInfo := 0, false, None, None;
      hostId, phase, outbox := None, Lobby, [];
    }

    /** A joining device after its peer opened, not yet connected. */
    constructor Joiner(id: string, name: string)
      ensures Valid() && !isHost && myId == id && myName == name
      ensures players == [] && connections == []
      ensures eliminatedIds == [] && voteCounts == [] && votesCast == {} && votedTarget == None
      ensures remainingTime == 0 && !timerActive && currentPair == None && myInfo == None
      ensures hostId == None && phase == Lobby && outbox == []
    {
      isHost, myId, myName := false, id, name;
      connections, players := [], [];
      eliminatedIds, voteCounts, votesCast, votedTarget := [], [], {}, None;
      remainingTime, timerActive, currentPair, myInfo := 0, false, None, None;
      hostId, phase, outbox := None, Lobby, [];
    }

    // -------------------------------------------------------------------
    // Shared by host and client

    /** `connections.forEach(({conn}) => conn.send(m))` */
    method Broadcast(m: Message)
      modifies this`outbox
      ensures outbox == old(outbox) + Sends(connections, m)
    {
      var i := 0;
      while i < |connections|
        invariant 0 <= i <= |connections|
        invariant outbox + Sends(connections[i..], m) == old(outbox) + Sends(connections, m)
      {
        assert connections[i..] == [connections[i]] + connections[i + 1..];
        outbox := outbox + [Outgoing(connections[i].id, m)];
        i := i + 1;
      }
    }

    /** showGameScreen (src/main.ts:158-190): throws at once when `myInfo`
        is undefined; otherwise resets the countdown to one minute per player
        and starts it. */
    method ShowGameScreen() returns (shown: bool)
      modifies this`phase, this`remainingTime, this`timerActive
      ensures shown <==> myInfo.Some?
      ensures shown ==> phase == Discussion && remainingTime == |players| * 60 && timerActive
      ensures !shown ==> SameScreen()
    {
      if myInfo.None? {
        return false;
      }
      phase := Discussion;
      remainingTime := |players| * 60;
      timerActive := true;
      return true;
    }

    /** beginVote (src/main.ts:203-210). */
    method BeginVote()
      modifies this`timerActive, this`votesCast, this`voteCounts, this`votedTarget, this`phase
      ensures VoteBegun()
    {
      timerActive := false;
      votesCast := {};
      voteCounts := [];
      votedTarget := None;
      phase := Voting;
    }

    /** showEnd (src/main.ts:311-318). The countdown is hidden, not stopped. */
    method ShowEnd(msg: string)
      modifies this`phase
      ensures phase == Ended(msg)
    {
      phase := Ended(msg);
    }

    /** One countdown callback (src/main.ts:179-189, and the identical one
        installed at 295-305). On the host, reaching zero stops the countdown,
        opens the vote and tells every client; a client only counts down. */
    method Tick()
      requires Valid() && timerActive
      modifies this`remainingTime, this`timerActive, this`votesCast, this`voteCounts,
               this`votedTarget, this`phase, this`outbox
      ensures Valid()
      ensures remainingTime == old(remainingTime) - 1
      ensures isHost && remainingTime <= 0 ==>
                VoteBegun() && outbox == old(outbox) + Sends(connections, VoteStart)
      ensures !(isHost && remainingTime <= 0) ==>
                timerActive && SameVotes() && phase == old(phase) && outbox == old(outbox)
    {
      remainingTime := remainingTime - 1;
      if remainingTime <= 0 && isHost {
        BeginVote();
        Broadcast(VoteStart);
      }
    }

    /** The stop button (src/main.ts:193-201): the host ends the discussion
        early; on a client the handler does nothing. */
    method Stop()
      requires Valid()
      modifies this`timerActive, this`votesCast, this`voteCounts, this`votedTarget,
               this`phase, this`outbox
      ensures Valid()
      ensures isHost ==> VoteBegun() && outbox == old(outbox) + Sends(connections, VoteStart)
      ensures !isHost ==> unchanged(this)
    {
      if !isHost {
        return;
      }
      BeginVote();
      Broadcast(VoteStart);
    }

    // -------------------------------------------------------------------
    // Host: registry

    /** The host answers a newly opened connection with `request-intro`. */
    method PeerConnected(peerId: string)
      requires isHost
      modifies this`outbox
      ensures outbox == old(outbox) + [Outgoing(peerId, RequestIntro)]
    {
      outbox := outbox + [Outgoing(peerId, RequestIntro)];
    }

    /** The effect of an `intro` from `peerId`: ignored when that peer is
        already registered, otherwise the peer is appended to `connections`
        and, as a normal player, to `players`, and the roster is broadcast
        (to the newcomer too). */
    twostate predicate IntroHandled(peerId: string, name: string)
      reads this
    {
      if Listed(old(connections), peerId) then
        connections == old(connections) && players == old(players) && outbox == old(outbox)
      else
        && connections == old(connections) + [Entry(peerId, name)]
        && players == old(players) + [Player(peerId, name, Normal)]
        && outbox == old(outbox) + Sends(connections, PlayerList(Entries(players)))
    }

    /** The `intro` case of the host's data handler (src/main.ts:388-392). */
    method AcceptIntro(peerId: string, name: string)
      requires Valid() && isHost && peerId != myId
      modifies this`connections, this`players, this`outbox
      ensures Valid()
      ensures IntroHandled(peerId, name)
    {
      if Listed(connections, peerId) {
        return;
      }
      var p := Player(peerId, name, Normal);
      IntroKeepsRoster(players, connections, myId, myName, peerId, name);
      connections := connections + [Entry(peerId, name)];
      players := players + [p];
      Broadcast(PlayerList(Entries(players)));
    }

    /** A connection closed (src/main.ts:397-400): the peer's entries leave
        `connections` and `players`, the rest keep their order, and the new
        roster is broadcast. Round state is left as it is. */
    method RemovePeer(peerId: string)
      requires Valid() && isHost && peerId != myId
      modifies this`connections, this`players, this`outbox
      ensures Valid()
      ensures connections == WithoutEntry(old(connections), peerId)
      ensures players == WithoutPlayer(old(players), peerId)
      ensures outbox == old(outbox) + Sends(connections, PlayerList(Entries(players)))
    {
      RemovalKeepsRoster(players, connections, myId, myName, peerId);
      connections := WithoutEntry(connections, peerId);
      players := WithoutPlayer(players, peerId);
      Broadcast(PlayerList(Entries(players)));
    }

    // -------------------------------------------------------------------
    // Host: rounds

    /** The state `startRound` leaves on the host: round state cleared, one
        undercover drawn, one word pair drawn, the snapshot sent to every
        connection, the discussion countdown running. */
    twostate predicate RoundStarted(catalog: seq<WordPair>, rndUndercover: real, rndPair: real)
      reads this
      requires |catalog| > 0 && 0.0 <= rndUndercover < 1.0 && 0.0 <= rndPair < 1.0
    {
      && eliminatedIds == [] && votesCast == {} && voteCounts == [] && votedTarget == None
      && |old(players)| > 0
      && players == AssignRoles(old(players), Pick(rndUndercover, |old(players)|))
      && currentPair == Some(catalog[Pick(rndPair, |catalog|)])
      && outbox == old(outbox) + Sends(connections, Start(players, catalog[Pick(rndPair, |catalog|)]))
      && |players| > 0 && myInfo == Some(players[0])
      && phase == Discussion && remainingTime == |players| * 60 && timerActive
    }

    /** The role loop of startRound (src/main.ts:136-139): the player at
        `uc` becomes undercover, every other one normal, in place. */
    method DealRoles(uc: nat)
      requires uc < |players|
      modifies this`players
      ensures players == AssignRoles(old(players), uc)
    {
      var i := 0;
      while i < |players|
        invariant 0 <= i <= |players| == |old(players)|
        invariant forall k :: 0 <= k < i ==> players[k] == old(players)[k].(role := if k == uc then Undercover else Normal)
        invariant forall k :: i <= k < |players| ==> players[k] == old(players)[k]
      {
        players := players[i := players[i].(role := if i == uc then Undercover else Normal)];
        i := i + 1;
      }
    }

    /** startRound on the host (src/main.ts:128-156, countdown at 173). */
    method StartRound(catalog: seq<WordPair>, rndUndercover: real, rndPair: real)
      requires Valid() && isHost
      requires |catalog| > 0 && 0.0 <= rndUndercover < 1.0 && 0.0 <= rndPair < 1.0
      modifies this`eliminatedIds, this`votesCast, this`voteCounts, this`votedTarget,
               this`players, this`currentPair, this`myInfo, this`outbox, this`phase,
               this`remainingTime, this`timerActive
      ensures Valid()
      ensures eliminatedIds == [] && votesCast == {} && voteCounts == [] && votedTarget == None
      ensures players == AssignRoles(old(players), Pick(rndUndercover, |old(players)|))
      ensures currentPair == Some(catalog[Pick(rndPair, |catalog|)])
      ensures outbox == old(outbox) + Sends(connections, Start(players, catalog[Pick(rndPair, |catalog|)]))
      ensures myInfo == Some(players[0])
      ensures phase == Discussion && remainingTime == |players| * 60 && timerActive
      ensures UndercoverCount(players) == 1
    {
      ResetRound();
      var uc := Pick(rndUndercover, |players|);
      DealtRosterValid(players, connections, myId, myName, uc);
      DealRoles(uc);
      Publish(catalog[Pick(rndPair, |catalog|)]);
    }

    /** The round state both sides clear when a round starts
        (src/main.ts:129-132 and 440). */
    method ResetRound()
      modifies this`eliminatedIds, this`votesCast, this`voteCounts, this`votedTarget
      ensures eliminatedIds == [] && votesCast == {} && voteCounts == [] && votedTarget == None
    {
      eliminatedIds := [];
      votesCast := {};
      voteCounts := [];
      votedTarget := None;
    }

    /** The host's side of a dealt round (src/main.ts:141-155): the drawn
        pair is sent to every connection with the roster, the host finds
        itself in the roster and the discussion starts. */
    method Publish(pair: WordPair)
      requires Valid() && isHost
      modifies this`currentPair, this`outbox, this`myInfo, this`phase, this`remainingTime, this`timerActive
      ensures currentPair == Some(pair)
      ensures outbox == old(outbox) + Sends(connections, Start(players, pair))
      ensures myInfo == Some(players[0])
      ensures phase == Discussion && remainingTime == |players| * 60 && timerActive
    {
      currentPair := Some(pair);
      Broadcast(Start(players, pair));
      FindByIdAt(players, 0);
      myInfo := FindById(players, myId);
      var shown := ShowGameScreen();
    }

    /** The start button (src/main.ts:404-410): refused, changing nothing,
        while fewer than three players are registered. */
    method TryStartGame(catalog: seq<WordPair>, rndUndercover: real, rndPair: real) returns (started: bool)
      requires Valid() && isHost
      requires |catalog| > 0 && 0.0 <= rndUndercover < 1.0 && 0.0 <= rndPair < 1.0
      modifies this`eliminatedIds, this`votesCast, this`voteCounts, this`votedTarget,
               this`players, this`currentPair, this`myInfo, this`outbox, this`phase,
               this`remainingTime, this`timerActive
      ensures Valid()
      ensures started <==> |old(players)| >= 3
      ensures started ==> RoundStarted(catalog, rndUndercover, rndPair)
      ensures !started ==> unchanged(this)
    {
      if |players| < 3 {
        return false;
      }
      StartRound(catalog, rndUndercover, rndPair);
      return true;
    }

    /** The restart button (src/main.ts:411-414): starts a new round with the
        current roster and no player-count check. */
    method Restart(catalog: seq<WordPair>, rndUndercover: real, rndPair: real)
      requires Valid() && isHost
      requires |catalog| > 0 && 0.0 <= rndUndercover < 1.0 && 0.0 <= rndPair < 1.0
      modifies this`eliminatedIds, this`votesCast, this`voteCounts, this`votedTarget,
               this`players, this`currentPair, this`myInfo, this`outbox, this`phase,
               this`remainingTime, this`timerActive
      ensures Valid()
      ensures RoundStarted(catalog, rndUndercover, rndPair)
    {
      StartRound(catalog, rndUndercover, rndPair);
    }

    // -------------------------------------------------------------------
    // Host: votes

    /** The state `endVoting` leaves, given the vote state `cast`/`tally` it
        was called with: the drawn leader is appended to `eliminatedIds`, the
        countdown is stopped, and then by verdict: a win is broadcast and
        shown with the vote state kept; a continuing round clears the vote
        state, broadcasts the elimination and resumes the countdown from the
        time left (`remainingTime` is untouched); a throw stops there. */
    twostate predicate VotingEnded(cast: set<string>, tally: Tally, rnd: real, elim: string, verdict: Verdict)
      reads this
      requires |tally| > 0 && 0.0 <= rnd < 1.0
    {
      && elim == TieBreak(tally, rnd)
      && eliminatedIds == old(eliminatedIds) + [elim]
      && verdict == Judge(players, eliminatedIds, elim)
      && (verdict.Continue? ==>
            && timerActive && votesCast == {} && voteCounts == [] && votedTarget == None
            && phase == Discussion
            && outbox == old(outbox) + Sends(connections, Elimination(elim)))
      && (!verdict.Continue? ==>
            !timerActive && votesCast == cast && voteCounts == tally && votedTarget == old(votedTarget))
      && (verdict.Thrown? ==> phase == old(phase) && outbox == old(outbox))
      && (verdict.NormalsWin? || verdict.UndercoverWins? ==>
            && phase == Ended(EndMessage(verdict))
            && outbox == old(outbox) + Sends(connections, GameEnd(EndMessage(verdict))))
    }

    /** endVoting (src/main.ts:248-307). */
    method EndVoting(rnd: real) returns (elim: string, verdict: Verdict)
      requires Valid() && isHost && |voteCounts| > 0 && 0.0 <= rnd < 1.0
      modifies this`votesCast, this`voteCounts, this`eliminatedIds, this`votedTarget,
               this`timerActive, this`phase, this`outbox
      ensures Valid()
      ensures VotingEnded(old(votesCast), old(voteCounts), rnd, elim, verdict)
    {
      timerActive := false;
      elim := TieBreak(voteCounts, rnd);
      eliminatedIds := eliminatedIds + [elim];
      verdict := Judge(players, eliminatedIds, elim);
      CarryOut(elim, verdict);
    }

    /** The branches of endVoting after the decision (src/main.ts:262-306):
        announce a win, or resume the discussion, or (after a throw) nothing. */
    method CarryOut(elim: string, verdict: Verdict)
      modifies this`votesCast, this`voteCounts, this`votedTarget, this`timerActive,
               this`phase, this`outbox
      ensures verdict.Continue? ==>
                && timerActive && votesCast == {} && voteCounts == [] && votedTarget == None
                && phase == Discussion
      ensures verdict.Continue? ==> outbox == old(outbox) + Sends(connections, Elimination(elim))
      ensures !verdict.Continue? ==> timerActive == old(timerActive) && SameVotes()
      ensures verdict.Thrown? ==> phase == old(phase) && outbox == old(outbox)
      ensures verdict.NormalsWin? || verdict.UndercoverWins? ==> phase == Ended(EndMessage(verdict))
      ensures verdict.NormalsWin? || verdict.UndercoverWins? ==>
                outbox == old(outbox) + Sends(connections, GameEnd(EndMessage(verdict)))
    {
      match verdict {
        case Thrown =>
        case NormalsWin(_) | UndercoverWins(_) =>
          AnnounceEnd(EndMessage(verdict));
        case Continue =>
          votedTarget := None;
          votesCast := {};
          voteCounts := [];
          phase := Discussion;
          Broadcast(Elimination(elim));
          timerActive := true;
      }
    }

    /** A decided round: every client gets the `game-end` text, and the host
        shows it too. */
    method AnnounceEnd(msg: string)
      modifies this`outbox, this`phase
      ensures outbox == old(outbox) + Sends(connections, GameEnd(msg))
      ensures phase == Ended(msg)
    {
      Broadcast(GameEnd(msg));
      ShowEnd(msg);
    }

    /** The effect of one `recordVote(voterId, targetId)`: a repeated voter
        changes nothing; otherwise the voter is marked and only the target's
        count goes up by one, and the vote is resolved exactly when the
        number of voters reaches the number of non-eliminated players. */
    twostate predicate VoteHandled(voterId: string, targetId: string, rnd: real, outcome: VoteOutcome)
      reads this
      requires 0.0 <= rnd < 1.0
    {
      && SameRoster()
      && (outcome.AlreadyVoted? <==> voterId in old(votesCast))
      && (outcome.AlreadyVoted? ==> unchanged(this))
      && (outcome.Resolved? <==>
            voterId !in old(votesCast) && |old(votesCast)| + 1 >= |players| - |old(eliminatedIds)|)
      && (outcome.Counted? ==>
            && votesCast == old(votesCast) + {voterId}
            && voteCounts == Increment(old(voteCounts), targetId)
            && eliminatedIds == old(eliminatedIds) && votedTarget == old(votedTarget)
            && timerActive == old(timerActive) && phase == old(phase) && outbox == old(outbox))
      && (outcome.Resolved? ==>
            VotingEnded(old(votesCast) + {voterId}, Increment(old(voteCounts), targetId),
                        rnd, outcome.elim, outcome.verdict))
    }

    /** recordVote (src/main.ts:212-220). It checks only `votesCast`, not
        whether the voter was eliminated. */
    method RecordVote(voterId: string, targetId: string, rnd: real) returns (outcome: VoteOutcome)
      requires Valid() && isHost && 0.0 <= rnd < 1.0
      modifies this`votesCast, this`voteCounts, this`eliminatedIds, this`votedTarget,
               this`timerActive, this`phase, this`outbox
      ensures Valid()
      ensures VoteHandled(voterId, targetId, rnd, outcome)
    {
      if voterId in votesCast {
        return AlreadyVoted;
      }
      votesCast := votesCast + {voterId};
      IncrementWellFormed(voteCounts, targetId);
      voteCounts := Increment(voteCounts, targetId);
      if |votesCast| >= |players| - |eliminatedIds| {
        var elim, verdict := EndVoting(rnd);
        return Resolved(elim, verdict);
      }
      return Counted;
    }

    /** The host's data handler (src/main.ts:386-396): non-messages are
        dropped, `intro` and `vote` are handled, every other type ignored. */
    method HostReceive(from: string, d: Datum, rnd: real) returns (outcome: Option<VoteOutcome>)
      requires Valid() && isHost && from != myId && 0.0 <= rnd < 1.0
      modifies this`connections, this`players, this`outbox, this`votesCast, this`voteCounts,
               this`eliminatedIds, this`votedTarget, this`timerActive, this`phase
      ensures Valid()
      ensures outcome.Some? <==> IsMessage(d) && d.tagged.value.Vote?
      ensures IsMessage(d) && d.tagged.value.Intro? ==>
                IntroHandled(from, d.tagged.value.name) && SameVotes() && SameRound() && SameScreen()
      ensures IsMessage(d) && d.tagged.value.Vote? ==>
                VoteHandled(d.tagged.value.voterId, d.tagged.value.targetId, rnd, outcome.value)
      ensures !(IsMessage(d) && (d.tagged.value.Intro? || d.tagged.value.Vote?)) ==> unchanged(this)
    {
      outcome := None;
      if !IsMessage(d) {
        return;
      }
      match d.tagged.value {
        case Intro(name) =>
          AcceptIntro(from, name);
        case Vote(voterId, targetId) =>
          var o := RecordVote(voterId, targetId, rnd);
          outcome := Some(o);
        case _ =>
      }
    }

    // -------------------------------------------------------------------
    // Both sides: the local vote

    /** vote (src/main.ts:320-331), reached by clicking a votable entry. A
        client sends its vote to the host. On the host the voter is added to
        `votesCast` before `recordVote` is called, so `recordVote` returns at
        once and the host's own vote is never tallied. */
    method Vote(targetId: string, rnd: real)
      requires Valid() && 0.0 <= rnd < 1.0
      requires !isHost ==> hostId.Some?
      modifies this`votesCast, this`voteCounts, this`eliminatedIds, this`votedTarget,
               this`timerActive, this`phase, this`outbox
      ensures Valid()
      ensures myId in old(votesCast) || myId in old(eliminatedIds) ==> unchanged(this)
      ensures !(myId in old(votesCast) || myId in old(eliminatedIds)) ==>
                && votesCast == old(votesCast) + {myId}
                && votedTarget == Some(targetId)
                && voteCounts == old(voteCounts)
                && eliminatedIds == old(eliminatedIds)
                && timerActive == old(timerActive)
                && phase == Voting
                && outbox == old(outbox) + (if isHost then [] else [Outgoing(hostId.value, Message.Vote(myId, targetId))])
    {
      if myId in votesCast || myId in eliminatedIds {
        return;
      }
      votesCast := votesCast + {myId};
      votedTarget := Some(targetId);
      phase := Voting;
      if isHost {
        var ignored := RecordVote(myId, targetId, rnd);
      } else {
        outbox := outbox + [Outgoing(hostId.value, Message.Vote(myId, targetId))];
      }
    }

    // -------------------------------------------------------------------
    // Client

    /** doJoin (src/main.ts:423-427): the code is checked before any
        connection is opened. */
    method DoJoin(input: string) returns (r: JoinCheck)
      requires !isHost
      modifies this`hostId
      ensures r == CheckJoin(input, myId)
      ensures hostId == if r.Connect? then Some(r.hostId) else old(hostId)
    {
      r := CheckJoin(input, myId);
      if r.Connect? {
        hostId := Some(r.hostId);
      }
    }

    /** The client's connection opened: it introduces itself (src/main.ts:428). */
    method JoinOpened()
      requires !isHost && hostId.Some?
      modifies this`outbox
      ensures outbox == old(outbox) + [Outgoing(hostId.value, Intro(myName))]
    {
      outbox := outbox + [Outgoing(hostId.value, Intro(myName))];
    }

    /** What a client does with one host message (src/main.ts:431-453). */
    twostate predicate ClientApplied(m: Message)
      reads this
    {
      match m
      case PlayerList(roster) =>
        players == AsNormal(roster) && SameRound() && SameVotes() && SameScreen()
      case Start(ps, pair) =>
        && players == ps && currentPair == Some(pair) && myInfo == FindById(ps, myId)
        && eliminatedIds == [] && votesCast == {} && voteCounts == [] && votedTarget == None
        && (if myInfo.Some? then phase == Discussion && remainingTime == |ps| * 60 && timerActive
            else SameScreen())
      case VoteStart =>
        VoteBegun() && players == old(players) && SameRound() && remainingTime == old(remainingTime)
      case Elimination(t) =>
        && eliminatedIds == old(eliminatedIds) + [t] && phase == Voting
        && players == old(players) && currentPair == old(currentPair) && myInfo == old(myInfo)
        && SameVotes() && remainingTime == old(remainingTime) && timerActive == old(timerActive)
      case GameEnd(msg) =>
        && phase == Ended(msg) && players == old(players) && SameRound() && SameVotes()
        && remainingTime == old(remainingTime) && timerActive == old(timerActive)
      case _ =>
        players == old(players) && SameRound() && SameVotes() && SameScreen()
    }

    /** The client's `start` case (src/main.ts:436-442): the host's roster
        and pair are taken over, the device looks itself up by id, the round
        state is cleared and the game screen shown. */
    method ApplyStart(ps: seq<Player>, pair: WordPair)
      requires !isHost
      modifies this`players, this`currentPair, this`myInfo, this`eliminatedIds, this`votesCast,
               this`voteCounts, this`votedTarget, this`phase, this`remainingTime, this`timerActive
      ensures players == ps && currentPair == Some(pair) && myInfo == FindById(ps, myId)
      ensures eliminatedIds == [] && votesCast == {} && voteCounts == [] && votedTarget == None
      ensures myInfo.Some? ==> phase == Discussion && remainingTime == |ps| * 60 && timerActive
      ensures myInfo.None? ==> SameScreen()
    {
      players := ps;
      currentPair := Some(pair);
      myInfo := FindById(ps, myId);
      ResetRound();
      var shown := ShowGameScreen();
    }

    /** The client's data handler: non-messages and unknown types are
        ignored; the five host message types update the mirror. */
    method HandleMessage(d: Datum)
      requires Valid() && !isHost
      modifies this`players, this`currentPair, this`myInfo, this`eliminatedIds, this`votesCast,
               this`voteCounts, this`votedTarget, this`phase, this`remainingTime, this`timerActive
      ensures Valid()
      ensures !IsMessage(d) ==> unchanged(this)
      ensures IsMessage(d) ==> ClientApplied(d.tagged.value)
    {
      if !IsMessage(d) {
        return;
      }
      match d.tagged.value {
        case PlayerList(roster) =>
          players := AsNormal(roster);
        case Start(ps, pair) =>
          ApplyStart(ps, pair);
        case VoteStart =>
          BeginVote();
        case Elimination(t) =>
          eliminatedIds := eliminatedIds + [t];
          phase := Voting;
        case GameEnd(msg) =>
          ShowEnd(msg);
        case _ =>
      }
    }
  }
}
