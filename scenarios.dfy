/** Concrete sessions driven through the handlers: a host "P1" (Ana) with
    two clients "P2" (Ben) and "P3" (Cem), one word pair, and fixed draws. */
module Scenarios {
  import opened Protocol
  import opened Roster
  import opened Votes
  import opened Chance
  import opened Game
  import opened Onboarding

  const Ana := Player("P1", "Ana", Normal)
  const Ben := Player("P2", "Ben", Normal)
  const Cem := Player("P3", "Cem", Normal)
  const Pair := WordPair("Apfel", "Birne")

  function VoteFrom(voter: string, target: string): Datum
  {
    Object(Some(Message.Vote(voter, target)))
  }

  /** The host after Ben introduced himself: Ben was asked for his name and
      then got the roster. */
  method LobbyWithBen() returns (s: Session)
    ensures fresh(s) && s.Valid() && s.isHost && s.myId == "P1"
    ensures s.players == [Ana, Ben]
    ensures s.connections == [Entry("P2", "Ben")]
    ensures s.outbox == [Outgoing("P2", RequestIntro),
                         Outgoing("P2", PlayerList([Entry("P1", "Ana"), Entry("P2", "Ben")]))]
  {
    s := new Session.Host("P1", "Ana");
    s.PeerConnected("P2");
    s.AcceptIntro("P2", "Ben");
    var two := [Entry("P1", "Ana"), Entry("P2", "Ben")];
    assert Entries([Ana, Ben]) == two;
    assert Sends([Entry("P2", "Ben")], PlayerList(two)) == [Outgoing("P2", PlayerList(two))];
  }

  /** Then Cem joins: every registered client gets the new roster, in
      registration order. */
  method Lobby() returns (s: Session)
    ensures fresh(s) && s.Valid() && s.isHost && s.myId == "P1"
    ensures s.players == [Ana, Ben, Cem]
    ensures s.connections == [Entry("P2", "Ben"), Entry("P3", "Cem")]
    ensures |s.outbox| == 5
    ensures s.outbox[..2] == [Outgoing("P2", RequestIntro),
                              Outgoing("P2", PlayerList([Entry("P1", "Ana"), Entry("P2", "Ben")]))]
    ensures s.outbox[2..] == [Outgoing("P3", RequestIntro),
                              Outgoing("P2", PlayerList([Entry("P1", "Ana"), Entry("P2", "Ben"), Entry("P3", "Cem")])),
                              Outgoing("P3", PlayerList([Entry("P1", "Ana"), Entry("P2", "Ben"), Entry("P3", "Cem")]))]
  {
    s := LobbyWithBen();
    var before := s.outbox;
    s.PeerConnected("P3");
    s.AcceptIntro("P3", "Cem");
    var three := [Entry("P1", "Ana"), Entry("P2", "Ben"), Entry("P3", "Cem")];
    assert Entries([Ana, Ben, Cem]) == three;
    var m := PlayerList(three);
    assert Sends([Entry("P3", "Cem")], m) == [Outgoing("P3", m)];
    assert Sends([Entry("P2", "Ben"), Entry("P3", "Cem")], m) == [Outgoing("P2", m), Outgoing("P3", m)];
    assert s.outbox[..2] == before;
  }

  /** The lobby after a round was started with the draw that makes Ben the
      undercover. */
  method RoundWithBenUndercover() returns (s: Session)
    ensures fresh(s) && s.Valid() && s.isHost && s.myId == "P1"
    ensures s.players == [Ana, Ben.(role := Undercover), Cem]
    ensures s.connections == [Entry("P2", "Ben"), Entry("P3", "Cem")]
    ensures s.eliminatedIds == [] && s.votesCast == {} && s.voteCounts == []
    ensures s.phase == Discussion && s.timerActive && s.remainingTime == 180
  {
    s := Lobby();
    PickReaches(1, 3);
    var started := s.TryStartGame([Pair], 1.0 / 3.0, 0.0);
    assert AssignRoles([Ana, Ben, Cem], 1) == [Ana, Ben.(role := Undercover), Cem];
  }

  /** After the host voted for Ben and Cem's vote for Ben arrived. */
  method HostAndCemVoted(rnd: real) returns (s: Session, tallyAfterHost: Tally, cem: VoteOutcome)
    requires 0.0 <= rnd < 1.0
    ensures fresh(s) && s.Valid() && s.isHost
    ensures s.players == [Ana, Ben.(role := Undercover), Cem]
    ensures s.connections == [Entry("P2", "Ben"), Entry("P3", "Cem")]
    ensures s.eliminatedIds == [] && s.votesCast == {"P1", "P3"} && s.voteCounts == [Count("P2", 1)]
    ensures tallyAfterHost == [] && cem == Counted
  {
    s := VoteOpened();
    s.Vote("P2", rnd);
    tallyAfterHost := s.voteCounts;
    var o := s.HostReceive("P3", VoteFrom("P3", "P2"), rnd);
    cem := o.value;
  }

  /** The host's own vote is never tallied, so once Cem votes for Ben as
      well, two of three voters have been recorded and the vote stays open:
      Ben must vote too. */
  method HostVoteIsNotCounted() returns (tallyAfterHost: Tally, cem: VoteOutcome)
    ensures tallyAfterHost == []
    ensures cem == Counted
  {
    var s;
    s, tallyAfterHost, cem := HostAndCemVoted(0.0);
  }

  /** The host ends the discussion early: the vote opens on every device. */
  method VoteOpened() returns (s: Session)
    ensures fresh(s) && s.Valid() && s.isHost && s.myId == "P1"
    ensures s.players == [Ana, Ben.(role := Undercover), Cem] && s.eliminatedIds == []
    ensures s.votesCast == {} && s.voteCounts == [] && !s.timerActive && s.phase == Voting
  {
    s := RoundWithBenUndercover();
    s.Stop();
  }

  /** Ben's vote for Cem is the first to reach the host. */
  method BenVotedFirst() returns (s: Session)
    ensures fresh(s) && s.Valid() && s.isHost && s.myId == "P1"
    ensures s.players == [Ana, Ben.(role := Undercover), Cem] && s.eliminatedIds == []
    ensures s.votesCast == {"P2"} && s.voteCounts == [Count("P3", 1)] && !s.timerActive
  {
    s := VoteOpened();
    var o := s.HostReceive("P2", VoteFrom("P2", "P3"), 0.0);
  }

  /** Then Cem's vote for Ben; the host has not voted yet. */
  method GuestsVotedFirst() returns (s: Session)
    ensures fresh(s) && s.Valid() && s.isHost && s.myId == "P1"
    ensures s.players == [Ana, Ben.(role := Undercover), Cem] && s.eliminatedIds == []
    ensures s.votesCast == {"P2", "P3"} && s.voteCounts == [Count("P3", 1), Count("P2", 1)]
    ensures !s.timerActive
  {
    s := BenVotedFirst();
    assert |{"P2"}| == 1;
    assert Increment([Count("P3", 1)], "P2") == [Count("P3", 1)] + Increment([], "P2");
    var o := s.HostReceive("P3", VoteFrom("P3", "P2"), 0.0);
  }

  /** When the host is the last to vote, every player has voted but the
      threshold test never runs: nothing is eliminated, and with the
      countdown stopped nothing else will end the vote. */
  method HostVotingLastStalls() returns (cast: set<string>, tally: Tally, eliminated: seq<string>, ticking: bool)
    ensures cast == {"P1", "P2", "P3"}
    ensures tally == [Count("P3", 1), Count("P2", 1)]
    ensures eliminated == [] && !ticking
  {
    var s := GuestsVotedFirst();
    s.Vote("P2", 0.0);
    cast, tally, eliminated, ticking := s.votesCast, s.voteCounts, s.eliminatedIds, s.timerActive;
  }

  /** The same round, with Ben's vote for Cem arriving last: the tally is
      Ben 1, Cem 1, tied in that order; the draw `rnd` picks between them. */
  method BenVotesLast(rnd: real) returns (s: Session, outcome: VoteOutcome)
    requires 0.0 <= rnd < 1.0
    ensures fresh(s) && s.Valid() && s.isHost
    ensures s.players == [Ana, Ben.(role := Undercover), Cem]
    ensures outcome.Resolved?
    ensures outcome.elim == TieBreak([Count("P2", 1), Count("P3", 1)], rnd)
    ensures s.eliminatedIds == [outcome.elim]
    ensures outcome.verdict == Judge(s.players, s.eliminatedIds, outcome.elim)
    ensures outcome.verdict.NormalsWin? || outcome.verdict.UndercoverWins? ==>
              s.phase == Ended(EndMessage(outcome.verdict))
  {
    var tally, cem;
    s, tally, cem := HostAndCemVoted(rnd);
    assert |{"P1", "P3"}| == 2;
    assert Increment([Count("P2", 1)], "P3") == [Count("P2", 1), Count("P3", 1)];
    var o := s.HostReceive("P2", VoteFrom("P2", "P3"), rnd);
    outcome := o.value;
  }

  /** Between two tied targets, a draw below one half picks the first
      target counted, any other draw the second. */
  lemma TieBetweenBenAndCem(rnd: real)
    requires 0.0 <= rnd < 1.0
    ensures TieBreak([Count("P2", 1), Count("P3", 1)], rnd) == if rnd < 0.5 then "P2" else "P3"
  {
    var t := [Count("P2", 1), Count("P3", 1)];
    assert MaxVotes(t) == 1;
    assert Leaders(t) == ["P2", "P3"];
    assert Pick(rnd, 2) == if rnd < 0.5 then 0 else 1;
  }

  /** A draw below one half eliminates Ben, the undercover: the normal
      players win and every client is told so. */
  method TieFallsOnUndercover() returns (elim: string, verdict: Verdict, shown: Phase)
    ensures elim == "P2"
    ensures verdict == NormalsWin(Ben.(role := Undercover))
    ensures shown == Ended("Die normalen Spieler haben gewonnen! Undercover war Ben.")
  {
    var s, outcome := BenVotesLast(0.0);
    TieBetweenBenAndCem(0.0);
    elim := outcome.elim;
    var ps, out := s.players, s.eliminatedIds;
    assert elim == ps[1].id;
    CaughtUndercoverEndsRound(ps, out, 1);
    verdict := outcome.verdict;
    shown := s.phase;
  }

  /** A draw of one half or more eliminates Cem: two players survive, so the
      undercover wins. */
  method TieFallsOnNormal() returns (elim: string, verdict: Verdict, shown: Phase)
    ensures elim == "P3"
    ensures verdict == UndercoverWins(Ben.(role := Undercover))
    ensures shown == Ended("Der Undercover hat gewonnen! Undercover war Ben.")
  {
    var s, outcome := BenVotesLast(0.5);
    TieBetweenBenAndCem(0.5);
    elim := outcome.elim;
    var ps, out := s.players, s.eliminatedIds;
    assert elim == ps[2].id && out == ["P3"];
    LastTwoUndercoverWins(ps, out, 2, 1);
    verdict := outcome.verdict;
    assert EndMessage(verdict) == UndercoverWinsText("Ben")
                               == "Der Undercover hat gewonnen! Undercover war Ben.";
    shown := s.phase;
  }

  /** A join code pasted with a leading blank and a trailing newline still
      connects to the host. */
  lemma PaddedCodeTrims()
    ensures Trim(" P1\n") == "P1"
    ensures CheckJoin(" P1\n", "P2") == Connect("P1")
  {
    assert !IsSpace('P') && !IsSpace('1');
    assert " P1\n"[1..] == "P1\n";
    assert TrimStart("P1\n") == "P1\n";
    assert "P1\n"[..2] == "P1";
    assert TrimEnd("P1") == "P1";
    assert "P1" != "P2";
  }

  /** Ben's device joins the host with its code. */
  method BenJoins() returns (c: Session, join: JoinCheck)
    ensures fresh(c) && c.Valid() && !c.isHost && c.myId == "P2" && c.myName == "Ben"
    ensures join == Connect("P1") && c.hostId == Some("P1") && c.outbox == []
  {
    c := new Session.Joiner("P2", "Ben");
    assert !IsSpace('P') && !IsSpace('1');
    assert TrimStart("P1") == "P1";
    assert TrimEnd("P1") == "P1";
    assert "P1" != "P2";
    join := c.DoJoin("P1");
  }

  /** The joined client introduces itself and receives the start
      snapshot. */
  method BenStarts() returns (c: Session, join: JoinCheck, me: Option<Player>)
    ensures fresh(c) && c.Valid() && !c.isHost && c.myId == "P2" && c.hostId == Some("P1")
    ensures join == Connect("P1")
    ensures me == c.myInfo == Some(Ben.(role := Undercover))
    ensures c.eliminatedIds == [] && c.outbox == [Outgoing("P1", Intro("Ben"))]
    ensures c.phase == Discussion && c.remainingTime == 180 && c.timerActive
  {
    c, join := BenJoins();
    c.JoinOpened();
    var ps := [Ana, Ben.(role := Undercover), Cem];
    FindByIdAt(ps, 1);
    c.HandleMessage(Object(Some(Start(ps, Pair))));
    me := c.myInfo;
  }

  /** The joined client mirrors the host's start snapshot and finds itself
      in it; once the vote opens, its vote goes to the host. */
  method ClientMirrorsStart() returns (join: JoinCheck, me: Option<Player>, sent: seq<Outgoing>)
    ensures join == Connect("P1")
    ensures me == Some(Ben.(role := Undercover))
    ensures sent == [Outgoing("P1", Intro("Ben")), Outgoing("P1", Message.Vote("P2", "P3"))]
  {
    var c;
    c, join, me := BenStarts();
    c.HandleMessage(Object(Some(VoteStart)));
    c.Vote("P3", 0.0);
    sent := c.outbox;
  }
}
