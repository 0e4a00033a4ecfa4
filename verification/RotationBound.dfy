/**
 Where the walk along recorded moves runs out: from every committed birth a run of rotations, one at a
 time and undisturbed, records as many moves as a load follows. One more whose answer is lost is then
 recorded when it is run again, and still not read.
 */
module RotationBound {
  import opened Wrappers
  import opened KeyMoves
  import opened RotationRuns
  import opened RotateCommand

  /** Nothing runs, so many moves are recorded, and the chain's committed head is the recorded key. */
  ghost predicate Settled(s: Sys, line: nat, moves: nat) {
    && InvOn(s, line) && s.chain != [] && s.procs == map[] && Moves(s.disk, line) == moves
    && !s.chain[|s.chain| - 1].Sealed() && Rank(Tip(s.chain)) == moves
  }

  lemma SettledIsAnswered(s: Sys, line: nat, moves: nat)
    requires Settled(s, line, moves) && moves <= MAX_MOVES
    ensures Load(s.disk, s.address) == Some(Tip(s.chain)) && !Unanswered(s)
  {
    LoadReads(s, line);
    InvGivesRecordedOrNext(s, line);
  }

  /** The rotation lands, and its process has yet to record it. */
  ghost predicate Landed(s: Sys, t: Sys, cur: Key) {
    && Leads(s, t) && t.address == s.address && t.disk.moved == s.disk.moved && t.procs == map[0 := RotateRecord(cur)]
    && t.chain != [] && Tip(t.chain) == NextOf(cur) && !t.chain[|t.chain| - 1].Sealed()
  }

  /** A rotate started now reads the head and decides to reveal over it. */
  lemma Decides(s: Sys, line: nat, moves: nat) returns (t: Sys)
    requires Settled(s, line, moves) && moves <= MAX_MOVES
    ensures Leads(s, t) && HeadOf(s.chain).Signable()
    ensures t == s.(procs := map[0 := RotateMint(Tip(s.chain), 0, HeadOf(s.chain), false)])
  {
    hide Leads, InvOn;
    SettledIsAnswered(s, line, moves);
    DecideAtHead(s, line);
    var cur, n := Tip(s.chain), |s.chain|;
    assert s.chain[..n] == s.chain;
    LeadsToItself(s);
    LeadsOn(s, s, StartRotate(0));
    t := Next(s, StartRotate(0));
    assert t == s.(procs := map[0 := RotateRead(cur, 0)]);
    LeadsOn(s, t, Read(0, n, n));
    t := Next(t, Read(0, n, n));
  }

  lemma Sends(s: Sys, line: nat, moves: nat) returns (t: Sys, m: Event)
    requires Settled(s, line, moves) && moves <= MAX_MOVES
    ensures Leads(s, t) && t.address == s.address && t.disk.moved == s.disk.moved && t.chain == s.chain
    ensures var cur := Tip(s.chain);
            && HeadOf(s.chain).Signable() && m == Rotation(HeadOf(s.chain), cur)
            && t.procs == map[0 := RotateWait(cur, 0, false, m)]
  {
    hide Leads, InvOn, HeadOf, Accepts, Answer, Served, MoveInLog, Decide, Load, Moves;
    var cur, head := Tip(s.chain), HeadOf(s.chain);
    t := Decides(s, line, moves);
    m := Rotation(head, cur);
    LeadsOn(s, t, Take(0));
    t := Next(t, Take(0));
    assert t.procs == map[0 := RotateMark(cur, 0, head, false)];
    LeadsOn(s, t, Take(0));
    t := Next(t, Take(0));
    assert t.procs == map[0 := RotateSend(cur, 0, head, false)];
    LeadsOn(s, t, Take(0));
    t := Next(t, Take(0));
  }

  lemma Lands(s: Sys, line: nat, moves: nat) returns (t: Sys)
    requires Settled(s, line, moves) && moves <= MAX_MOVES
    ensures Landed(s, t, Tip(s.chain))
  {
    hide Leads;
    var cur := Tip(s.chain);
    var sent, m := Sends(s, line, moves);
    assert OwnEvent(s.disk, line, s.chain[|s.chain| - 1]);
    assert Accepts(s.chain, m);
    LeadsOn(s, sent, Hear(0));
    t := Next(sent, Hear(0));
    assert t.chain == s.chain + [m];
    assert HeadOf(t.chain) == Head(Committed, Some(m.sequence), Some(m), Some(m.key), true);
  }

  /** The head's key has not been moved from: that would be one move more than are recorded. */
  lemma HeadHasNotMoved(s: Sys, line: nat, moves: nat)
    requires Settled(s, line, moves)
    ensures Tip(s.chain) !in s.disk.moved && Seed(Tip(s.chain)) == line
  {
    assert OwnEvent(s.disk, line, s.chain[|s.chain| - 1]);
  }

  /** One more move recorded, and everything as settled as before. */
  lemma RotatesOnce(s: Sys, line: nat, moves: nat) returns (t: Sys)
    requires Settled(s, line, moves) && moves <= MAX_MOVES
    ensures Leads(s, t) && t.address == s.address && Settled(t, line, moves + 1)
  {
    hide Leads, InvOn;
    var cur := Tip(s.chain);
    var landed := Lands(s, line, moves);
    HeadHasNotMoved(s, line, moves);
    LeadsOn(s, landed, Take(0));
    var recorded := Next(landed, Take(0));
    assert recorded.disk.moved == s.disk.moved[cur := NextOf(cur)] && recorded.chain == landed.chain;
    OneMoreMove(s.disk.moved, cur, NextOf(cur), line);
    LeadsOn(s, recorded, Crash(0));
    t := Next(recorded, Crash(0));
    LeadsKeeps(s, t, line);
  }

  lemma {:induction false} RotatesOften(s: Sys, line: nat, moves: nat) returns (t: Sys)
    requires Settled(s, line, 0) && moves <= MAX_MOVES
    ensures Leads(s, t) && t.address == s.address && Settled(t, line, moves)
    decreases moves
  {
    hide Leads, Settled;
    if moves == 0 {
      LeadsToItself(s);
      t := s;
    } else {
      var before := RotatesOften(s, line, moves - 1);
      t := RotatesOnce(before, line, moves - 1);
      LeadsThrough(s, before, t);
    }
  }

  /** The move that is recorded and still not read. */
  ghost predicate OutrunsTheWalk(s: Sys, line: nat) {
    && Unanswered(s) && Moves(s.disk, line) == MAX_MOVES
    && var cur := Load(s.disk, s.address).value;
    && var recorded := RecordMove(s.disk, cur, NextOf(cur));
    && recorded.Ok? && NextOf(cur) in recorded.value.kept && recorded.value.moved[cur] == NextOf(cur)
    && Load(recorded.value, s.address) != Some(Tip(s.chain))
  }

  /** One more rotation lands, and its process dies before it records the move. */
  lemma LosesTheLastAnswer(s: Sys, line: nat) returns (end: Sys)
    requires Settled(s, line, MAX_MOVES)
    ensures Leads(s, end) && InvOn(end, line) && Unanswered(end) && Moves(end.disk, line) == MAX_MOVES
  {
    hide Leads, InvOn;
    var cur := Tip(s.chain);
    SettledIsAnswered(s, line, MAX_MOVES);
    var landed := Lands(s, line, MAX_MOVES);
    LeadsOn(s, landed, Crash(0));
    end := Next(landed, Crash(0));
    LeadsKeeps(s, end, line);
    LoadIsStable(s, end, line);
  }

  /** Rewound and recorded, such a rotation is still not what a load reads. */
  lemma UnreadRecord(s: Sys, line: nat)
    requires InvOn(s, line) && Unanswered(s) && Moves(s.disk, line) == MAX_MOVES
    ensures OutrunsTheWalk(s, line)
  {
    LostAnswerIsResentUnchanged(s, line);
  }

  lemma BirthIsSettled(s: Sys, line: nat)
    requires Born(s, line) && s.chain[0].next.Some?
    ensures Settled(s, line, 0)
  {
    BirthHolds(s, line);
  }

  /** From every birth committed to a next key some run comes to a rotation whose record no load reads. */
  lemma RecordsOutrunTheWalk(s: Sys, line: nat)
    requires Born(s, line) && s.chain[0].next.Some?
    ensures exists actions :: OutrunsTheWalk(Run(s, actions), line)
  {
    hide Leads, InvOn, Settled, OutrunsTheWalk;
    BirthIsSettled(s, line);
    var often := RotatesOften(s, line, MAX_MOVES);
    var end := LosesTheLastAnswer(often, line);
    LeadsThrough(s, often, end);
    UnreadRecord(end, line);
    Reached(s, end, line);
  }

  lemma Reached(s: Sys, end: Sys, line: nat)
    requires Leads(s, end) && OutrunsTheWalk(end, line)
    ensures exists actions :: OutrunsTheWalk(Run(s, actions), line)
  {
    var actions :| Run(s, actions) == end;
  }

  /** Such a birth: one key under the address, its next key stored and committed to. */
  lemma SomeBirthOutrunsTheWalk()
    ensures var birth := Event(0, Genesis, Icp, Minted(0), Some(NextOf(Minted(0))));
            var disk := Disk(map["a" := Minted(0)], {}, {Minted(0)}, map[], {}, map[]);
            var s := Sys("a", disk, [birth], map[], {});
            Born(s, 0) && exists actions :: OutrunsTheWalk(Run(s, actions), 0)
  {
    var birth := Event(0, Genesis, Icp, Minted(0), Some(NextOf(Minted(0))));
    var s := Sys("a", Disk(map["a" := Minted(0)], {}, {Minted(0)}, map[], {}, map[]), [birth], map[], {});
    RecordsOutrunTheWalk(s, 0);
  }
}
