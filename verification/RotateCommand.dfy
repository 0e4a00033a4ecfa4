/**
 `whisper identity rotate` as the command runs it: one attempt loop over a store and a service it
 changes in place. What each send meets, and what arrives late before each read, is given. Every call is
 proved to be a run of the interleaved system, so all that holds of those runs holds of it, and the outcome
 says what became of the chain and of the record.
 */
module RotateCommand {
  import opened Wrappers
  import opened KeyMoves
  import opened RotationRuns

  /** One state of the interleaved system leads to another: some run goes from the first to the second. */
  ghost predicate Leads(s: Sys, t: Sys) {
    exists actions :: Run(s, actions) == t
  }

  lemma {:induction false} RunJoin(s: Sys, t: seq<Action>, u: seq<Action>)
    ensures Run(s, t + u) == Run(Run(s, t), u)
    decreases |u|
  {
    if u == [] {
      assert t + u == t;
    } else {
      RunJoin(s, t, u[..|u| - 1]);
      assert (t + u)[..|t + u| - 1] == t + u[..|u| - 1];
    }
  }

  lemma LeadsToItself(s: Sys)
    ensures Leads(s, s)
  {
    assert Run(s, []) == s;
  }

  lemma LeadsOn(s: Sys, t: Sys, a: Action)
    requires Leads(s, t)
    ensures Leads(s, Next(t, a))
  {
    var actions :| Run(s, actions) == t;
    assert (actions + [a])[..|actions|] == actions;
    assert Run(s, actions + [a]) == Next(t, a);
  }

  lemma LeadsThrough(s: Sys, t: Sys, u: Sys)
    requires Leads(s, t) && Leads(t, u)
    ensures Leads(s, u)
  {
    var first :| Run(s, first) == t;
    var rest :| Run(t, rest) == u;
    RunJoin(s, first, rest);
  }

  lemma LeadsKeeps(s: Sys, t: Sys, line: nat)
    requires Leads(s, t) && InvOn(s, line)
    ensures InvOn(t, line)
  {
    var actions :| Run(s, actions) == t;
    RunKeeps(s, line, actions);
  }

  /** Read whole at the head, the record's own key either commits first or reveals its next key there. */
  lemma DecideAtHead(s: Sys, line: nat)
    requires InvOn(s, line) && !Unanswered(s)
    ensures var cur := Load(s.disk, s.address).value;
            && HeadOf(s.chain).key == Some(cur)
            && Decide(s.disk, cur, History(s.chain, HeadOf(s.chain)))
               == if s.chain[|s.chain| - 1].Sealed() then CommitFirst(HeadOf(s.chain))
                  else Reveal(HeadOf(s.chain), false)
  {
    InvGivesRecordedOrNext(s, line);
    assert OwnEvent(s.disk, line, s.chain[|s.chain| - 1]);
    hide InvOn, Accepts, RecordedOrNext, Landed, EventAt;
  }

  /** As long as no move is recorded in between, a load reads the same key. */
  lemma LoadIsStable(s: Sys, t: Sys, line: nat)
    requires InvOn(s, line) && InvOn(t, line) && Moves(s.disk, line) == Moves(t.disk, line)
    ensures Load(t.disk, t.address) == Load(s.disk, s.address)
  {
    LoadReads(s, line);
    LoadReads(t, line);
    SameRankSameKey(Load(s.disk, s.address).value, Load(t.disk, t.address).value);
  }

  /** The chain's head says the rotation from this key is in effect. */
  predicate ConfirmsNext(chain: seq<Event>, cur: Key) {
    HeadOf(chain).mode == Committed && HeadOf(chain).key == Some(NextOf(cur))
  }

  /** An attempt reports a key exactly when that move was recorded, and then the key is the chain's. */
  predicate Moved(r: Result<Option<Key>, Refusal>, cur: Key, before: Disk, after: Disk, chain: seq<Event>) {
    if r.Ok? && r.value.Some?
    then chain != [] && r.value.value == NextOf(cur) && Tip(chain) == NextOf(cur)
         && after.moved == before.moved[cur := NextOf(cur)]
    else after.moved == before.moved
  }

  /** A statement that reveals the recorded key's next key is taken, and the head then confirms it. */
  predicate CalmlyDecided(s: Sys, cur: Key, decision: Decision) {
    && s.chain != []
    && match decision
       case Refuse(_) => false
       case CommitFirst(head) =>
         head == HeadOf(s.chain) && head.mode == Sealed && head.key == Some(cur) && !Unanswered(s)
       case Reveal(head, landed) =>
         && landed == Unanswered(s) && head.Signable() && Answer(s.chain, Rotation(head, cur)).Answered?
         && ConfirmsNext(Served(s.chain, Rotation(head, cur)), cur)
         && if Unanswered(s)
            then Served(s.chain, Rotation(head, cur)) == s.chain && Rotation(head, cur) == s.chain[|s.chain| - 1]
            else && head == HeadOf(s.chain) && head.mode == Committed && head.key == Some(cur)
                 && Served(s.chain, Rotation(head, cur)) == s.chain + [Rotation(head, cur)]
  }

  lemma AtHeadCalmlyDecided(s: Sys, line: nat)
    requires InvOn(s, line) && !Unanswered(s)
    ensures var cur := Load(s.disk, s.address);
            cur.Some? && CalmlyDecided(s, cur.value, Decide(s.disk, cur.value, History(s.chain, HeadOf(s.chain))))
  {
    DecideAtHead(s, line);
    var head, cur := HeadOf(s.chain), Load(s.disk, s.address).value;
    if head.mode == Committed {
      var m := Rotation(head, cur);
      assert OwnEvent(s.disk, line, s.chain[|s.chain| - 1]);
      assert Accepts(s.chain, m);
      assert HeadOf(Served(s.chain, m)) == Head(Committed, Some(m.sequence), Some(m), Some(m.key), true);
    }
  }

  lemma UnansweredCalmlyDecided(s: Sys, line: nat)
    requires InvOn(s, line) && Unanswered(s)
    ensures var cur := Load(s.disk, s.address);
            cur.Some? && CalmlyDecided(s, cur.value, Decide(s.disk, cur.value, History(s.chain, HeadOf(s.chain))))
  {
    LostAnswerIsResentUnchanged(s, line);
  }

  lemma CalmDecision(s: Sys, line: nat)
    requires InvOn(s, line)
    ensures Load(s.disk, s.address).Some?
    ensures var cur := Load(s.disk, s.address).value;
            && (cur in s.disk.moved ==> s.disk.moved[cur] == NextOf(cur))
            && CalmlyDecided(s, cur, Decide(s.disk, cur, History(s.chain, HeadOf(s.chain))))
  {
    LoadReads(s, line);
    if Unanswered(s) {
      UnansweredCalmlyDecided(s, line);
    } else {
      AtHeadCalmlyDecided(s, line);
    }
  }

  /** While the walk along recorded moves has room, the next load reads the key just moved to. */
  lemma MoveIsRead(s: Sys, t: Sys, line: nat)
    requires InvOn(s, line) && InvOn(t, line) && Moves(s.disk, line) < MAX_MOVES
    requires Load(s.disk, s.address).Some?
    requires var cur := Load(s.disk, s.address).value; t.disk.moved == s.disk.moved[cur := NextOf(cur)]
    ensures Load(t.disk, t.address) == Some(NextOf(Load(s.disk, s.address).value))
  {
    LoadReads(s, line);
    LoadReads(t, line);
    var cur := Load(s.disk, s.address).value;
    assert cur !in s.disk.moved;
    SameRankSameKey(Load(t.disk, t.address).value, NextOf(cur));
  }

  lemma ChainOnlyGrows(s: Sys, t: Sys)
    requires Leads(s, t)
    ensures s.chain <= t.chain
  {
    var actions :| Run(s, actions) == t;
    RunOnlyGrows(s, actions);
  }

  lemma {:induction false} RunOnlyGrows(s: Sys, actions: seq<Action>)
    ensures s.chain <= Run(s, actions).chain
    decreases |actions|
  {
    hide Advance, Answer, Accepts, HeadOf, LeavesAlone, Load;
    if actions != [] {
      RunOnlyGrows(s, actions[..|actions| - 1]);
    }
  }

  /** What a command leaves behind: the chain keeps all it had; on success its key is the chain's and,
      while the walk has room, the one a load reads; on failure the record is as it was. */
  predicate Fulfilled(s: Sys, r: Result<Key, Refusal>, t: Sys) {
    && s.chain <= t.chain && RecordedOrNext(t)
    && match r
       case Ok(key) =>
         && var cur := Load(s.disk, s.address);
         && cur.Some? && key == NextOf(cur.value) && Tip(t.chain) == key
         && t.disk.moved == s.disk.moved[cur.value := key]
         && (Moves(s.disk, Seed(cur.value)) < MAX_MOVES ==> Load(t.disk, t.address) == Some(key))
       case Err(_) => t.disk.moved == s.disk.moved && Load(t.disk, t.address) == Load(s.disk, s.address)
  }

  // ----- what the network does, as data ---------------------------------------------------------

  /** What one request meets: it does not arrive, arrives with its answer lost, is turned away, or is heard. */
  datatype Met = Unarrived | Unheard | TurnedAway(code: Code) | Replied

  /** The fate of each send by its number; the statements of other runs, or of this one, that arrive late
      before each read; and whether a read shows the whole history as it stands. */
  datatype Net = Net(fates: nat -> Met, late: nat -> seq<Event>, whole: bool)

  /** Where things stand between the command's steps. */
  datatype Stand = Stand(chain: seq<Event>, wire: set<Event>, sends: nat, looks: nat)

  /** A statement that was ever sent may arrive at any time. */
  function Late(chain: seq<Event>, wire: set<Event>, messages: seq<Event>): seq<Event>
    decreases |messages|
  {
    if messages == [] then chain
    else
      var before, m := Late(chain, wire, messages[..|messages| - 1]), messages[|messages| - 1];
      if m in wire then Served(before, m) else before
  }

  lemma {:induction false} LateGrows(chain: seq<Event>, wire: set<Event>, messages: seq<Event>)
    ensures chain <= Late(chain, wire, messages)
    decreases |messages|
  {
    if messages != [] {
      LateGrows(chain, wire, messages[..|messages| - 1]);
    }
  }

  function Delivered(chain: seq<Event>, m: Event, met: Met): seq<Event> {
    if met.Unheard? || met.Replied? then Served(chain, m) else chain
  }

  function Looked(net: Net, w: Stand): Stand {
    w.(chain := Late(w.chain, w.wire, net.late(w.looks)), looks := w.looks + 1)
  }

  function SentOn(net: Net, w: Stand, m: Event): Stand {
    w.(chain := Delivered(w.chain, m, net.fates(w.sends)), wire := w.wire + {m}, sends := w.sends + 1)
  }

  /** A sealed chain takes a commitment. One turned away because the head moved is tried once more over the head
      as it then is, unless that is committed already: to this host's next key, and all is well, or to another. */
  function Commits(net: Net, w: Stand, cur: Key, again: bool): (Result<(), Refusal>, Stand)
    decreases again
  {
    var head := HeadOf(w.chain);
    if !head.Signable() then (Err(NotSignable), w)
    else if head.key != Some(cur) then (Err(Pinned), w)
    else
      var u := SentOn(net, w, Commitment(head, cur));
      match net.fates(w.sends)
      case Replied => (Ok(()), u)
      case TurnedAway(HeadMoved) =>
        if !again then (Err(Lost), u)
        else
          var v := Looked(net, u);
          if HeadOf(v.chain).mode == Sealed then Commits(net, v, cur, false)
          else if v.chain != [] && v.chain[|v.chain| - 1].next == Some(NextOf(cur)) then (Ok(()), v)
          else (Err(OtherNextKey), v)
      case _ => (Err(Lost), u)
  }

  /** One read and what follows. A head that is this host's own rotation is sent again, once. Over any other
      committed head the rotation is signed, and turned away because the head moved it may go again. Nothing of it
      counts unless it is heard. */
  function Round(net: Net, before: Stand, cur: Key, again: bool): (Result<Option<Key>, Refusal>, Stand) {
    var w := Looked(net, before);
    var head := HeadOf(w.chain);
    if w.chain == [] then (Err(NoEvent), w)
    else if Tip(w.chain) == NextOf(cur) then
      (if net.fates(w.sends).Replied? then Ok(Some(NextOf(cur))) else Err(Lost), SentOn(net, w, w.chain[|w.chain| - 1]))
    else if head.mode == Sealed then
      var (committed, u) := Commits(net, w, cur, true);
      (match committed case Ok(_) => Ok(None) case Err(why) => Err(why), u)
    else if !head.Signable() then (Err(NotSignable), w)
    else
      (match net.fates(w.sends)
       case Replied => Ok(Some(NextOf(cur)))
       case TurnedAway(HeadMoved) => if again then Ok(None) else Err(Lost)
       case _ => Err(Lost), SentOn(net, w, Rotation(head, cur)))
  }

  /** Two rounds at most. */
  function Rounds(net: Net, w: Stand, cur: Key): (Result<Key, Refusal>, Stand) {
    var (first, u) := Round(net, w, cur, true);
    match first
    case Err(why) => (Err(why), u)
    case Ok(Some(key)) => (Ok(key), u)
    case Ok(None) =>
      var (second, v) := Round(net, u, cur, false);
      match second
      case Err(why) => (Err(why), v)
      case Ok(Some(key)) => (Ok(key), v)
      case Ok(None) => (Err(KeptMoving), v)
  }

  /** Nothing arrives late, and every read is whole. */
  ghost predicate Still(net: Net) {
    net.whole && forall n: nat :: net.late(n) == []
  }

  lemma StillLooks(net: Net, w: Stand)
    requires Still(net)
    ensures Looked(net, w) == w.(looks := w.looks + 1)
  {
  }

  // ----- what that comes to when nothing else happens ------------------------------------------------

  /** One send of the rotation over a committed head: heard, the next key is the chain's; anything else is a
      failure, after which the rotation is on the chain exactly if it arrived. */
  ghost predicate OneRotation(net: Net, chain: seq<Event>, n: nat, cur: Key, r: Result<Key, Refusal>, end: Stand)
    requires HeadOf(chain).Signable()
  {
    && end.sends == n + 1
    && (r == if net.fates(n) == Replied then Ok(NextOf(cur)) else Err(Lost))
    && end.chain == if net.fates(n) in {Replied, Unheard} then chain + [Rotation(HeadOf(chain), cur)] else chain
  }

  /** Over a committed head that is not this host's own rotation: one send, and one more exactly when the first is
      turned away because the head moved. */
  ghost predicate CommittedComesTo(net: Net, chain: seq<Event>, n: nat, cur: Key, r: Result<Key, Refusal>, end: Stand)
    requires HeadOf(chain).Signable()
  {
    OneRotation(net, chain, if net.fates(n) == TurnedAway(HeadMoved) then n + 1 else n, cur, r, end)
  }

  /** Over this host's own rotation, its answer lost: one send, which changes nothing, and no other whatever it
      meets. */
  ghost predicate RewoundComesTo(net: Net, chain: seq<Event>, n: nat, cur: Key, r: Result<Key, Refusal>, end: Stand) {
    && end.chain == chain && end.sends == n + 1
    && r == if net.fates(n) == Replied then Ok(NextOf(cur)) else Err(Lost)
  }

  /** Over a sealed head: the commitment, sent once more exactly when it is turned away because the head moved, and
      when it is heard one send of the rotation over it. */
  ghost predicate SealedComesTo(net: Net, chain: seq<Event>, n: nat, cur: Key, r: Result<Key, Refusal>, end: Stand)
    requires HeadOf(chain).Signable()
  {
    var committed := chain + [Commitment(HeadOf(chain), cur)];
    var last := if net.fates(n) == TurnedAway(HeadMoved) then n + 1 else n;
    if net.fates(last) == Replied then OneRotation(net, committed, last + 1, cur, r, end)
    else end.sends == last + 1 && r == Err(Lost)
         && end.chain == if net.fates(last) == Unheard then committed else chain
  }

  /** What the whole command comes to while nothing arrives late and reads are whole. */
  ghost predicate ComesTo(net: Net, s: Sys, n: nat, cur: Key, r: Result<Key, Refusal>, end: Stand) {
    if Unanswered(s) then RewoundComesTo(net, s.chain, n, cur, r, end)
    else
      && s.chain != [] && HeadOf(s.chain).Signable()
      && if HeadOf(s.chain).mode == Committed then CommittedComesTo(net, s.chain, n, cur, r, end)
         else SealedComesTo(net, s.chain, n, cur, r, end)
  }

  /** What the client is told of a request: nothing, or a reply. */
  function Reported(met: Met, chain: seq<Event>, m: Event): Option<Reply> {
    match met
    case Replied => Some(Answer(chain, m))
    case TurnedAway(code) => Some(Refused(code))
    case _ => None
  }

  /** A sealed chain's head, read whole. */
  predicate SealedAt(chain: seq<Event>, at: Head) {
    chain != [] && at == HeadOf(chain) && at.mode == Sealed
  }

  lemma SealedUnlessCommitted(chain: seq<Event>)
    requires chain != []
    ensures HeadOf(chain).mode == Committed || SealedAt(chain, HeadOf(chain))
    ensures !(HeadOf(chain).mode == Committed && SealedAt(chain, HeadOf(chain)))
  {
  }

  lemma EmptyIsNotSealed(at: Head)
    ensures !SealedAt([], at)
  {
  }

  lemma DeliveredGrows(chain: seq<Event>, m: Event, met: Met)
    ensures chain <= Delivered(chain, m, met)
  {
  }

  /** The commitment over a sealed head of this key is taken, and the head is then committed. */
  lemma SealedTakes(chain: seq<Event>, cur: Key, at: Head)
    requires SealedAt(chain, at) && at.key == Some(cur)
    ensures at.Signable() && var m := Commitment(at, cur);
            && Served(chain, m) == chain + [m] && HeadOf(chain + [m]).mode == Committed
            && Answer(chain, m) == Answered(HeadOf(chain + [m]))
  {
    assert Accepts(chain, Commitment(at, cur));
  }

  /** One send of it, as the loop makes it. */
  ghost predicate CommitsOn(net: Net, w: Stand, cur: Key, at: Head, again: bool)
    requires at.Signable() && at.key == Some(cur)
  {
    var m := Commitment(at, cur);
    var u, met := SentOn(net, w, m), net.fates(w.sends);
    match met
    case Replied =>
      Commits(net, w, cur, again) == (Ok(()), u)
      && Answer(w.chain, m).Answered? && Answer(w.chain, m).head.mode == Committed
    case TurnedAway(code) =>
      if code == HeadMoved && again then
        var v := Looked(net, u);
        if SealedAt(v.chain, HeadOf(v.chain)) then Commits(net, w, cur, true) == Commits(net, v, cur, false)
        else Commits(net, w, cur, true) == (if v.chain != [] && v.chain[|v.chain| - 1].next == Some(NextOf(cur))
                                            then Ok(()) else Err(OtherNextKey), v)
      else Commits(net, w, cur, again) == (Err(Lost), u)
    case _ => Commits(net, w, cur, again) == (Err(Lost), u)
  }

  lemma SealedCommits(net: Net, w: Stand, cur: Key, at: Head, again: bool)
    requires SealedAt(w.chain, at)
    ensures !at.Signable() ==> Commits(net, w, cur, again) == (Err(NotSignable), w)
    ensures at.Signable() && at.key != Some(cur) ==> Commits(net, w, cur, again) == (Err(Pinned), w)
    ensures at.Signable() && at.key == Some(cur) ==> CommitsOn(net, w, cur, at, again)
  {
    hide Late, Accepts;
    if at.key == Some(cur) {
      SealedTakes(w.chain, cur, at);
      LateGrows(SentOn(net, w, Commitment(at, cur)).chain, w.wire + {Commitment(at, cur)}, net.late(w.looks));
      DeliveredGrows(w.chain, Commitment(at, cur), net.fates(w.sends));
    }
  }

  /** A round that reveals, as the command makes it. */
  lemma RoundReveals(net: Net, before: Stand, s: Sys, cur: Key, head: Head, landed: bool, again: bool)
    requires s.chain == Looked(net, before).chain && Load(s.disk, s.address) == Some(cur)
    requires CalmlyDecided(s, cur, Reveal(head, landed))
    ensures var w := Looked(net, before);
            var met := net.fates(w.sends);
            Round(net, before, cur, again) ==
              (if met == Replied then Ok(Some(NextOf(cur)))
               else if met == TurnedAway(HeadMoved) && again && !landed then Ok(None) else Err(Lost),
               SentOn(net, w, Rotation(head, cur)))
  {
    hide Late, Accepts, Commits, Served, Delivered, Rotation, Answer;
  }

  /** A round that commits first. */
  lemma RoundCommits(net: Net, before: Stand, s: Sys, cur: Key, head: Head, again: bool)
    requires s.chain == Looked(net, before).chain && Load(s.disk, s.address) == Some(cur)
    requires CalmlyDecided(s, cur, CommitFirst(head))
    ensures var w := Looked(net, before);
            var (r, u) := Commits(net, w, cur, true);
            && SealedAt(w.chain, head)
            && Round(net, before, cur, again) == (if r.Ok? then Ok(None) else Err(r.error), u)
  {
    hide Late, Accepts, Commits, Served;
  }

  lemma StillCommits(net: Net, w: Stand, cur: Key, again: bool)
    requires Still(net) && SealedAt(w.chain, HeadOf(w.chain)) && HeadOf(w.chain).key == Some(cur)
    ensures var committed := w.chain + [Commitment(HeadOf(w.chain), cur)];
            var last := if again && net.fates(w.sends) == TurnedAway(HeadMoved) then w.sends + 1 else w.sends;
            var (r, u) := Commits(net, w, cur, again);
            && u.sends == last + 1 && (r == if net.fates(last) == Replied then Ok(()) else Err(Lost))
            && u.chain == if net.fates(last) in {Replied, Unheard} then committed else w.chain
    decreases again
  {
    hide Late, Accepts, Served;
    SealedTakes(w.chain, cur, HeadOf(w.chain));
    var u := SentOn(net, w, Commitment(HeadOf(w.chain), cur));
    StillLooks(net, u);
    if again && net.fates(w.sends) == TurnedAway(HeadMoved) {
      StillCommits(net, Looked(net, u), cur, false);
    }
  }

  /** Turned away because another run had moved the head: no second commitment is sent over a head that is committed
      by then, and whether to this host's next key decides. */
  lemma RivalCommits(net: Net, w: Stand, cur: Key)
    requires SealedAt(w.chain, HeadOf(w.chain)) && HeadOf(w.chain).key == Some(cur)
    requires net.fates(w.sends) == TurnedAway(HeadMoved)
    requires var c := Commitment(HeadOf(w.chain), cur);
             HeadOf(Late(w.chain, w.wire + {c}, net.late(w.looks))).mode == Committed
    ensures var moved := Late(w.chain, w.wire + {Commitment(HeadOf(w.chain), cur)}, net.late(w.looks));
            var (r, u) := Commits(net, w, cur, true);
            && u.chain == moved && u.sends == w.sends + 1
            && (r == if moved[|moved| - 1].next == Some(NextOf(cur)) then Ok(()) else Err(OtherNextKey))
  {
    hide Late, Accepts, Served;
    SealedTakes(w.chain, cur, HeadOf(w.chain));
    LateGrows(w.chain, w.wire + {Commitment(HeadOf(w.chain), cur)}, net.late(w.looks));
  }

  /** A committed head of this key: one round's rotation. */
  lemma StillRotates(net: Net, w: Stand, cur: Key, again: bool)
    requires Still(net) && w.chain != [] && HeadOf(w.chain).mode == Committed && HeadOf(w.chain).Signable()
    requires Tip(w.chain) == cur
    requires Served(w.chain, Rotation(HeadOf(w.chain), cur)) == w.chain + [Rotation(HeadOf(w.chain), cur)]
    ensures var (r, u) := Round(net, w, cur, again);
            var met := net.fates(w.sends);
            && (r == if met == Replied then Ok(Some(NextOf(cur)))
                     else if again && met == TurnedAway(HeadMoved) then Ok(None) else Err(Lost))
            && u.chain == (if met in {Replied, Unheard} then w.chain + [Rotation(HeadOf(w.chain), cur)] else w.chain)
            && u.sends == w.sends + 1
  {
    hide Late, Accepts, Commits;
    StillLooks(net, w);
  }

  /** The commitment just made can be rotated over. */
  lemma CommittedTakes(chain: seq<Event>, cur: Key)
    requires SealedAt(chain, HeadOf(chain)) && HeadOf(chain).key == Some(cur)
    ensures var committed := chain + [Commitment(HeadOf(chain), cur)];
            && Tip(committed) == cur && HeadOf(committed).mode == Committed && HeadOf(committed).Signable()
            && Served(committed, Rotation(HeadOf(committed), cur))
               == committed + [Rotation(HeadOf(committed), cur)]
  {
    SealedTakes(chain, cur, HeadOf(chain));
    var committed := chain + [Commitment(HeadOf(chain), cur)];
    assert Accepts(committed, Rotation(HeadOf(committed), cur));
  }

  lemma SealedRounds(net: Net, w: Stand, cur: Key)
    requires Still(net) && SealedAt(w.chain, HeadOf(w.chain)) && HeadOf(w.chain).key == Some(cur) && Tip(w.chain) == cur
    ensures HeadOf(w.chain).Signable()
    ensures var (r, u) := Rounds(net, w, cur); SealedComesTo(net, w.chain, w.sends, cur, r, u)
  {
    hide Late, Accepts, Served, Commits, Delivered;
    SealedTakes(w.chain, cur, HeadOf(w.chain));
    StillLooks(net, w);
    StillCommits(net, Looked(net, w), cur, true);
    var (r, u) := Round(net, w, cur, true);
    if r == Ok(None) {
      CommittedTakes(w.chain, cur);
      StillRotates(net, u, cur, false);
    }
  }

  lemma CommittedRounds(net: Net, w: Stand, cur: Key)
    requires Still(net) && w.chain != [] && HeadOf(w.chain).mode == Committed && HeadOf(w.chain).Signable()
    requires Tip(w.chain) == cur
    requires Served(w.chain, Rotation(HeadOf(w.chain), cur)) == w.chain + [Rotation(HeadOf(w.chain), cur)]
    ensures var (r, u) := Rounds(net, w, cur); CommittedComesTo(net, w.chain, w.sends, cur, r, u)
  {
    hide Round, Late, Accepts, Served;
    StillRotates(net, w, cur, true);
    var (r, u) := Round(net, w, cur, true);
    if r == Ok(None) {
      StillRotates(net, u, cur, false);
    }
  }

  /** So the sends of an undisturbed command, their fates given, decide its answer and the chain it leaves. */
  lemma RoundsComeTo(net: Net, s: Sys, w: Stand, line: nat)
    requires Still(net) && InvOn(s, line) && w.chain == s.chain
    ensures Load(s.disk, s.address).Some?
    ensures var cur := Load(s.disk, s.address).value;
            var (r, u) := Rounds(net, w, cur); ComesTo(net, s, w.sends, cur, r, u)
  {
    hide Late, Accepts, Commits;
    CalmDecision(s, line);
    var cur := Load(s.disk, s.address).value;
    StillLooks(net, w);
    if Unanswered(s) {
      HeadIsAnsweredUnchanged(s, line);
    } else {
      DecideAtHead(s, line);
      if HeadOf(s.chain).mode == Committed {
        CommittedRounds(net, w, cur);
      } else {
        SealedRounds(net, w, cur);
      }
    }
  }

  lemma StillIsWhole(net: Net)
    ensures Still(net) ==> net.whole
  {
  }

  lemma FulfilledBegun(s: Sys, begun: Sys, r: Result<Key, Refusal>, t: Sys)
    requires Fulfilled(begun, r, t) && begun == s.(procs := begun.procs)
    ensures Fulfilled(s, r, t)
  {
  }

  class Host {
    const address: Handle
    const net: Net
    var disk: Disk
    var chain: seq<Event>
    var wire: set<Event>
    var sends: nat
    var looks: nat
    ghost var self: Option<Proc>

    /** This host and the service as a state of the interleaved system, this command its only process. */
    ghost function State(): Sys
      reads this
    {
      Sys(address, disk, chain, if self.Some? then map[0 := self.value] else map[], wire)
    }

    function Now(): Stand
      reads this
    {
      Stand(chain, wire, sends, looks)
    }

    /** What arrived late is in the chain by the time it is read; unless reads are whole, this one may show less
        of it, with its first page older still. */
    method ReadHistory() returns (h: History, ghost first: nat, ghost last: nat)
      modifies this`chain, this`looks
      ensures Leads(old(State()), State()) && Now() == Looked(net, old(Now()))
      ensures first <= last <= |chain| && h == History(chain[..last], HeadOf(chain[..first]))
      ensures net.whole ==> h == History(chain, HeadOf(chain))
    {
      hide Leads, Run;
      ghost var before := State();
      LeadsToItself(before);
      var late := net.late(looks);
      for i := 0 to |late|
        invariant Leads(before, State()) && chain == Late(old(chain), wire, late[..i]) && looks == old(looks)
      {
        assert late[..i + 1][..i] == late[..i];
        if late[i] in wire {
          LeadsOn(before, State(), Deliver(late[i]));
          chain := Served(chain, late[i]);
        }
      }
      assert late[..|late|] == late && chain == Late(old(chain), wire, net.late(old(looks)));
      looks := looks + 1;
      var f, l := |chain|, |chain|;
      if !net.whole {
        l :| 0 <= l <= |chain|;
        f :| 0 <= f <= l;
      }
      h, first, last := History(chain[..l], HeadOf(chain[..f])), f, l;
      assert chain[..|chain|] == chain;
    }

    /** One request, and what it meets. */
    method Send(m: Event) returns (met: Met)
      modifies this`chain, this`sends
      ensures met == net.fates(old(sends)) && sends == old(sends) + 1
      ensures chain == Delivered(old(chain), m, met)
    {
      met := net.fates(sends);
      sends := sends + 1;
      if met.Unheard? || met.Replied? {
        chain := Served(chain, m);
      }
    }

    /** Sends this process's statement and takes in what comes back; no answer ends the command. */
    method Exchange(m: Event, ghost waiting: Proc) returns (reply: Option<Reply>)
      requires self == Some(waiting) && Waiting(waiting) && waiting.sent == m && m in wire
      modifies this`chain, this`sends, this`self
      ensures Leads(old(State()), State())
      ensures chain == Delivered(old(chain), m, net.fates(old(sends))) && sends == old(sends) + 1
      ensures reply.Some? ==> self == Some(Advance(disk, waiting, Input.Heard(reply.value)).1)
      ensures reply.None? ==> self == Some(waiting)
      ensures reply == Reported(net.fates(old(sends)), old(chain), m)
    {
      hide Leads, Run, Answer, Accepts, MoveInLog;
      ghost var before := State();
      LeadsToItself(before);
      var at := chain;
      var met := Send(m);
      match met {
        case Unarrived =>
          reply := None;
        case Unheard =>
          reply := None;
          LeadsOn(before, before, Deliver(m));
        case Replied =>
          var r := Answer(at, m);
          reply, self := Some(r), Some(Advance(disk, waiting, Input.Heard(r)).1);
          LeadsOn(before, before, Hear(0));
          assert State() == Next(before, Hear(0));
        case TurnedAway(code) =>
          reply, self := Some(Refused(code)), Some(Advance(disk, waiting, Input.Heard(Refused(code))).1);
          LeadsOn(before, before, Spurn(0, code));
          assert State() == Next(before, Spurn(0, code));
      }
    }

    /** One send of the commitment, at the head as read. */
    method CommitOnce(cur: Key, head: Head, again: bool, back: Option<nat>) returns (reply: Option<Reply>)
      requires self == Some(CommitSend(cur, head, again, back)) && head.Signable() && head.key == Some(cur)
      modifies this`chain, this`wire, this`sends, this`self
      ensures Leads(old(State()), State())
      ensures Now() == SentOn(net, old(Now()), Commitment(head, cur))
      ensures reply.Some? ==> self == Some(CommitHeard(cur, again, back, reply.value))
      ensures reply == Reported(net.fates(old(sends)), old(chain), Commitment(head, cur))
    {
      hide Leads, Run, Reported, Delivered;
      ghost var before := State();
      var m := Commitment(head, cur);
      ghost var waiting := CommitWait(cur, again, back, m);
      self, wire := Some(waiting), wire + {m};
      LeadsToItself(before);
      LeadsOn(before, before, Take(0));
      assert State() == Next(before, Take(0));
      ghost var sent := State();
      reply := Exchange(m, waiting);
      LeadsThrough(before, sent, State());
    }

    /** The key's next key is stored before anything that commits to it is sent. */
    method StoreNext(cur: Key, at: Head, back: Option<nat>)
      requires self == Some(CommitMint(cur, at, back))
      modifies this`disk, this`self
      ensures Leads(old(State()), State())
      ensures self == Some(CommitSend(cur, at, false, back)) && disk == EnsureNext(old(disk), cur)
    {
      hide Leads, Run;
      ghost var before := State();
      disk, self := EnsureNext(disk, cur), Some(CommitSend(cur, at, false, back));
      LeadsToItself(before);
      LeadsOn(before, before, Take(0));
      assert State() == Next(before, Take(0));
    }

    /** After a moved head: another run of this host may have committed first, to this very next key. */
    method Reread(cur: Key, back: Option<nat>) returns (h: History)
      requires self == Some(CommitReread(cur, back))
      modifies this`chain, this`looks, this`self
      ensures Leads(old(State()), State()) && Now() == Looked(net, old(Now()))
      ensures self == Some(CommitRetried(cur, back, h))
      ensures net.whole ==> h == History(chain, HeadOf(chain))
    {
      hide Leads, Run;
      ghost var before := State();
      ghost var first, last;
      h, first, last := ReadHistory();
      ghost var arrived := State();
      self := Some(CommitRetried(cur, back, h));
      LeadsOn(before, arrived, Action.Read(0, first, last));
      assert State() == Next(arrived, Action.Read(0, first, last));
    }

    /** One time round: what it came to, or the head to try over once more. */
    method CommitStep(cur: Key, head: Head, again: bool, back: Option<nat>)
      returns (done: Option<Result<(), Refusal>>, next: Head)
      requires self == Some(CommitSend(cur, head, again, back))
      modifies this`chain, this`wire, this`sends, this`looks, this`self
      ensures Leads(old(State()), State()) && old(chain) <= chain
      ensures done.Some? && done.value.Ok? ==> self == Some(AfterCommit(cur, back))
      ensures done.None? ==> !again && self == Some(CommitSend(cur, next, true, back))
      ensures net.whole && SealedAt(old(chain), head) ==>
                if done.Some? then (done.value, Now()) == Commits(net, old(Now()), cur, !again)
                else SealedAt(chain, next) && Commits(net, old(Now()), cur, true) == Commits(net, Now(), cur, false)
    {
      hide Leads, Run, Commits, Delivered, SealedAt, Late, Served, Accepts, HeadOf, Commitment;
      ghost var before, stood := State(), Now();
      LeadsToItself(before);
      next := head;
      if SealedAt(chain, head) {
        SealedCommits(net, stood, cur, head, !again);
      }
      if !head.Signable() || head.key != Some(cur) {
        return Some(Err(if head.Signable() then Pinned else NotSignable)), next;
      }
      var reply := CommitOnce(cur, head, again, back);
      DeliveredGrows(stood.chain, Commitment(head, cur), net.fates(stood.sends));
      match reply {
        case None => return Some(Err(Lost)), next;
        case Some(Answered(got)) => return Some(if got.mode == Committed then Ok(()) else Err(Unconfirmed)), next;
        case Some(Refused(code)) =>
          if code != HeadMoved || again {
            return Some(Err(Lost)), next;
          }
      }
      ghost var now := State();
      LateGrows(chain, wire, net.late(looks));
      var h := Reread(cur, back);
      LeadsThrough(before, now, State());
      if chain != [] {
        SealedUnlessCommitted(chain);
      } else {
        EmptyIsNotSealed(head);
      }
      if h.head.mode == Committed {
        return Some(if h.events != [] && h.events[|h.events| - 1].next == Some(NextOf(cur))
                    then Ok(()) else Err(OtherNextKey)), next;
      }
      next := h.head;
      return None, next;
    }

    /** Upgrades a sealed chain whose key this host holds, reading a moved head again once. */
    method CommitSealed(cur: Key, at: Head, back: Option<nat>) returns (r: Result<(), Refusal>)
      requires self == Some(CommitMint(cur, at, back))
      modifies this`disk, this`chain, this`wire, this`sends, this`looks, this`self
      ensures Leads(old(State()), State())
      ensures r.Ok? ==> self == Some(AfterCommit(cur, back))
      ensures disk == EnsureNext(old(disk), cur) && old(chain) <= chain
      ensures net.whole && SealedAt(old(chain), at) ==> (r, Now()) == Commits(net, old(Now()), cur, true)
    {
      hide Leads, Run, Commits, SealedAt;
      ghost var before, start := State(), Now();
      StoreNext(cur, at, back);
      var head, again := at, false;
      while true
        invariant Leads(before, State()) && self == Some(CommitSend(cur, head, again, back))
        invariant disk == EnsureNext(old(disk), cur) && old(chain) <= chain
        invariant net.whole && SealedAt(start.chain, at) ==>
                    SealedAt(chain, head) && Commits(net, start, cur, true) == Commits(net, Now(), cur, !again)
        decreases !again
      {
        ghost var now := State();
        var done;
        done, head := CommitStep(cur, head, again, back);
        LeadsThrough(before, now, State());
        if done.Some? {
          return done.value;
        }
        again := true;
      }
    }

    /** The key after next is stored and the rotation noted before the statement is sent. */
    method Reveal(cur: Key, attempt: nat, head: Head, landed: bool) returns (reply: Option<Reply>)
      requires self == Some(RotateMint(cur, attempt, head, landed)) && head.Signable()
      modifies this`disk, this`chain, this`wire, this`sends, this`self
      ensures Leads(old(State()), State())
      ensures disk == MarkRotating(EnsureNext(old(disk), NextOf(cur)), cur)
      ensures Now() == SentOn(net, old(Now()), Rotation(head, cur))
      ensures reply.Some? ==> self == Some(RotateHeard(cur, attempt, landed, reply.value))
      ensures reply == Reported(net.fates(old(sends)), old(chain), Rotation(head, cur))
    {
      hide Leads, Run, Accepts, Served, Answer, MoveInLog, Decide, HeadOf, MarkRotating, EnsureNext;
      hide Reported, Delivered;
      ghost var before := State();
      Prepare(cur, attempt, head, landed);
      ghost var ready := State();
      var m := Rotation(head, cur);
      ghost var waiting := RotateWait(cur, attempt, landed, m);
      self, wire := Some(waiting), wire + {m};
      LeadsOn(before, ready, Take(0));
      assert State() == Next(ready, Take(0));
      ghost var sent := State();
      reply := Exchange(m, waiting);
      LeadsThrough(before, sent, State());
    }

    method Prepare(cur: Key, attempt: nat, head: Head, landed: bool)
      requires self == Some(RotateMint(cur, attempt, head, landed))
      modifies this`disk, this`self
      ensures Leads(old(State()), State())
      ensures disk == MarkRotating(EnsureNext(old(disk), NextOf(cur)), cur)
      ensures self == Some(RotateSend(cur, attempt, head, landed))
    {
      hide Leads, Run, Decide, MoveInLog;
      ghost var before := State();
      disk, self := EnsureNext(disk, NextOf(cur)), Some(RotateMark(cur, attempt, head, landed));
      LeadsToItself(before);
      LeadsOn(before, before, Take(0));
      assert State() == Next(before, Take(0));
      ghost var minted := State();
      disk, self := MarkRotating(disk, cur), Some(RotateSend(cur, attempt, head, landed));
      LeadsOn(before, minted, Take(0));
      assert State() == Next(minted, Take(0));
    }

    method Record(cur: Key) returns (r: Result<Key, Refusal>)
      requires self == Some(RotateRecord(cur))
      modifies this`disk, this`self
      ensures Leads(old(State()), State())
      ensures var move := RecordMove(old(disk), cur, NextOf(cur));
              r == (if move.Ok? then Ok(NextOf(cur)) else Err(AlreadyMoved))
              && disk == if move.Ok? then move.value else old(disk)
    {
      hide Leads, Run;
      ghost var before := State();
      LeadsToItself(before);
      LeadsOn(before, before, Take(0));
      match RecordMove(disk, cur, NextOf(cur)) {
        case Ok(d) => disk, self, r := d, Some(Ended(Rotated(NextOf(cur)))), Ok(NextOf(cur));
        case Err(_) => self, r := Some(Ended(Failed(AlreadyMoved))), Err(AlreadyMoved);
      }
      assert State() == Next(before, Take(0));
    }

    method ReadForRotate(cur: Key, attempt: nat) returns (h: History)
      requires self == Some(RotateRead(cur, attempt))
      modifies this`chain, this`looks, this`self
      ensures Leads(old(State()), State()) && Now() == Looked(net, old(Now()))
      ensures self == Some(Decided(disk, cur, attempt, h))
      ensures net.whole ==> h == History(chain, HeadOf(chain))
    {
      hide Leads, Run;
      ghost var before := State();
      ghost var first, last;
      h, first, last := ReadHistory();
      ghost var arrived := State();
      self := Some(Decided(disk, cur, attempt, h));
      LeadsOn(before, arrived, Action.Read(0, first, last));
      assert State() == Next(arrived, Action.Read(0, first, last));
    }

    /** Reveals the next key, and records the move when the answer names that key as the chain's. A statement
        turned away because the head moved may go again, but for one rebuilt from a lost answer, and once only. */
    method RevealAndRecord(cur: Key, attempt: nat, head: Head, landed: bool) returns (r: Result<Option<Key>, Refusal>)
      requires self == Some(RotateMint(cur, attempt, head, landed)) && head.Signable()
      requires cur in disk.moved ==> disk.moved[cur] == NextOf(cur)
      modifies this`disk, this`chain, this`wire, this`sends, this`self
      ensures Leads(old(State()), State())
      ensures Now() == SentOn(net, old(Now()), Rotation(head, cur))
      ensures Moved(r, cur, old(disk), disk, chain)
      ensures r == Ok(None) ==> self == Some(NextAttempt(cur, attempt))
      ensures match net.fates(old(sends))
              case Replied =>
                (&& Answer(old(chain), Rotation(head, cur)).Answered?
                 && ConfirmsNext(Served(old(chain), Rotation(head, cur)), cur)) ==> r == Ok(Some(NextOf(cur)))
              case TurnedAway(code) =>
                r == if code == HeadMoved && attempt == 0 && !landed then Ok(None) else Err(Lost)
              case _ => r == Err(Lost)
    {
      hide Leads, Run;
      ghost var before := State();
      var reply := Reveal(cur, attempt, head, landed);
      if reply.None? {
        return Err(Lost);
      }
      match RotateHeard(cur, attempt, landed, reply.value) {
        case RotateRecord(_) =>
          ghost var heard := State();
          var key := Record(cur);
          LeadsThrough(before, heard, State());
          return match key case Ok(k) => Ok(Some(k)) case Err(why) => Err(why);
        case RotateRead(_, _) => return Ok(None);
        case Ended(outcome) => return Err(if outcome.Failed? then outcome.why else Lost);
      }
    }

    /** One time round the rotate loop: a key when it rotated, nothing when it must go round again. */
    method Attempt(cur: Key, attempt: nat, ghost line: nat) returns (r: Result<Option<Key>, Refusal>)
      requires self == Some(RotateRead(cur, attempt)) && InvOn(State(), line) && Load(disk, address) == Some(cur)
      modifies this`disk, this`chain, this`wire, this`sends, this`looks, this`self
      ensures Leads(old(State()), State())
      ensures old(chain) <= chain
      ensures Moved(r, cur, old(disk), disk, chain)
      ensures r == Ok(None) ==> self == Some(NextAttempt(cur, attempt))
      ensures net.whole ==> (r, Now()) == Round(net, old(Now()), cur, attempt == 0)
    {
      hide Leads, Run, InvOn, Answer, Rotation, Commitment, Accepts, Landed, EventAt, Commits, Delivered, Late;
      hide Round, Served, SealedAt;
      ghost var before, stood := State(), Now();
      var h := ReadForRotate(cur, attempt);
      ghost var decided, seen := State(), Now();
      LateGrows(stood.chain, stood.wire, net.late(stood.looks));
      LeadsKeeps(before, decided, line);
      CalmDecision(decided, line);
      match Decide(disk, cur, h) {
        case Refuse(why) =>
          return Err(why);
        case CommitFirst(head) =>
          if net.whole {
            RoundCommits(net, stood, decided, cur, head, attempt == 0);
          }
          var done := CommitSealed(cur, head, Some(attempt));
          LeadsThrough(before, decided, State());
          return match done case Ok(_) => Ok(None) case Err(why) => Err(why);
        case Reveal(head, landed) =>
          if net.whole {
            RoundReveals(net, stood, decided, cur, head, landed, attempt == 0);
          }
          r := RevealAndRecord(cur, attempt, head, landed);
          DeliveredGrows(seen.chain, Rotation(head, cur), net.fates(seen.sends));
          LeadsThrough(before, decided, State());
      }
    }

    /** The command starts as the system's only process, with the recorded key, and leaves nothing running. */
    ghost method Begin(cur: Key)
      requires self == None && Load(disk, address) == Some(cur)
      modifies this`self
      ensures self == Some(RotateRead(cur, 0)) && Leads(old(State()), State())
    {
      hide Leads, Run;
      ghost var before := State();
      self := Some(RotateRead(cur, 0));
      LeadsToItself(before);
      LeadsOn(before, before, StartRotate(0));
      assert State() == Next(before, StartRotate(0));
    }

    ghost method End()
      modifies this`self
      ensures self == None && Leads(old(State()), State())
    {
      hide Leads, Run;
      ghost var before := State();
      self := None;
      LeadsToItself(before);
      LeadsOn(before, before, Crash(0));
      assert State().procs == Next(before, Crash(0)).procs;
    }

    /** Nothing is left running; what the loop came to is what the command reports. */
    ghost method Finish(start: Sys, line: nat, cur: Key, step: Result<Option<Key>, Refusal>)
      requires Leads(start, State()) && InvOn(start, line) && Load(start.disk, start.address) == Some(cur)
      requires Moved(step, cur, start.disk, disk, chain)
      modifies this`self
      ensures self == None && Leads(start, State()) && InvOn(State(), line)
      ensures Fulfilled(start, if step.Ok? && step.value.Some? then Ok(NextOf(cur)) else Err(KeptMoving), State())
    {
      hide Leads, Run;
      ghost var ended := State();
      End();
      LeadsThrough(start, ended, State());
      LeadsKeeps(start, State(), line);
      InvGivesRecordedOrNext(State(), line);
      ChainOnlyGrows(start, State());
      if step.Err? || step.value.None? {
        LoadIsStable(start, State(), line);
      } else {
        LoadReads(start, line);
        if Moves(start.disk, line) < MAX_MOVES {
          MoveIsRead(start, State(), line);
        }
      }
    }

    /** The attempt loop: two rounds at most. */
    method Rotate(cur: Key, ghost line: nat) returns (r: Result<Key, Refusal>)
      requires self == Some(RotateRead(cur, 0)) && InvOn(State(), line) && Load(disk, address) == Some(cur)
      modifies this`disk, this`chain, this`wire, this`sends, this`looks, this`self
      ensures Leads(old(State()), State())
      ensures self == None && InvOn(State(), line) && Fulfilled(old(State()), r, State())
      ensures net.whole ==> (r, Now()) == Rounds(net, old(Now()), cur)
    {
      hide Leads, Run, Round, InvOn, Late, RecordedOrNext;
      ghost var start, stood := State(), Now();
      LeadsToItself(start);
      var attempt := 0;
      while attempt < 2
        invariant 0 <= attempt <= 2
        invariant Leads(start, State()) && InvOn(State(), line) && disk.moved == start.disk.moved
        invariant attempt < 2 ==> self == Some(RotateRead(cur, attempt))
        invariant net.whole && attempt == 0 ==> Now() == stood
        invariant net.whole && attempt == 1 ==> Round(net, stood, cur, true) == (Ok(None), Now())
        invariant net.whole && attempt == 2 ==> Rounds(net, stood, cur) == (Err(KeptMoving), Now())
      {
        ghost var before := State();
        LoadIsStable(start, before, line);
        var step := Attempt(cur, attempt, line);
        LeadsThrough(start, before, State());
        if step != Ok(None) {
          Finish(start, line, cur, step);
          return match step case Ok(key) => Ok(key.value) case Err(why) => Err(why);
        }
        LeadsKeeps(start, State(), line);
        attempt := attempt + 1;
      }
      Finish(start, line, cur, Ok(None));
      return Err(KeptMoving);
    }

    /** One pre-committed rotation of the identity at this address. With whole reads, what its sends meet and what
        arrives late decide it; with nothing late either, it comes to what the fates of its sends say. */
    method RotateIdentity(ghost line: nat) returns (r: Result<Key, Refusal>)
      requires self == None && (address in disk.handles ==> InvOn(State(), line))
      modifies this`disk, this`chain, this`wire, this`sends, this`looks, this`self
      ensures address !in old(disk.handles) ==> r == Err(NotHeld) && State() == old(State()) && Now() == old(Now())
      ensures address in old(disk.handles) ==>
                self == None && InvOn(State(), line) && Fulfilled(old(State()), r, State())
      ensures Leads(old(State()), State())
      ensures net.whole && address in old(disk.handles) ==>
                (r, Now()) == Rounds(net, old(Now()), Load(old(disk), address).value)
      ensures Still(net) && address in old(disk.handles) ==>
                ComesTo(net, old(State()), old(sends), Load(old(disk), address).value, r, Now())
    {
      hide Leads, Run, Rounds, ComesTo, InvOn, Still, Fulfilled;
      var held := Load(disk, address);
      ghost var start, stood := State(), Now();
      LeadsToItself(start);
      if held.None? {
        return Err(NotHeld);
      }
      StillIsWhole(net);
      if Still(net) {
        RoundsComeTo(net, start, stood, line);
      }
      Begin(held.value);
      ghost var begun := State();
      LeadsKeeps(start, begun, line);
      r := Rotate(held.value, line);
      LeadsThrough(start, begun, State());
      FulfilledBegun(start, begun, r, State());
    }
  }
}
