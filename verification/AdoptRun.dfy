/**
 `whisper connect --adopt-key` as the command runs it: the plan it fills in and the arguments it edits
 in place, over the shared key store, against a service whose answer to each request and to each read of
 a history is any at all. Every request goes through the self-heal every connect goes through, and is
 kept in a log. A signed adopt goes out unsigned only once, last, and only right after the service said
 it does not record key events yet.
 */
module AdoptRun {
  import opened Wrappers
  import opened KeyMoves
  import opened Vault
  import opened KeyCommands

  /** What a key event's signature is over: an owner's recovery over a held chain's head, the inception
      over the hosted key it replaces, or a birth. */
  datatype Statement = RecoveryOver(head: Head) | InceptionOver(custody: Key) | BirthOf(key: Key)

  datatype KeyMove = MovedNow | Incepted | PendingMove | Deferred(reason: Reason) | NotRecorded | NotMoved

  datatype Reason = HeadMovedOn | RotationNotReady | NoReason

  /** A connect's answer: none, a refusal, one without a result, or one that says what became of the key,
      where the chain stands and which key the zone publishes. */
  datatype Answer =
    | Silence | Refusal(trouble: Trouble) | NoResult
    | Settled(move: KeyMove, head: Head, pin: Option<Key>)

  datatype HeadRead = NotReadyYet | Unrecorded | Unreadable(retryable: bool) | Read(head: Head)

  /** What the service answers to each request, and to each read of the history, by their number. */
  datatype Service = Service(answers: nat -> Answer, heads: nat -> HeadRead, history: Option<seq<Event>>)

  /** One request: the statement and the key whose proof it carried, and what came back. */
  datatype Sent = Sent(statement: Option<Statement>, proof: Option<Key>, answer: Answer)

  datatype Selection = NoSelector | Unresolved(retryable: bool) | At(addr: Handle)

  datatype Ended = Connected | FailedToConnect

  /** A run: its requests, how it ended, and how many times it read the history. */
  datatype Course = Course(log: seq<Sent>, ended: Ended, looks: nat)

  predicate NotTaken(a: Answer) {
    a.Silence? || a.Refusal?
  }

  predicate ToldToWait(a: Answer) {
    a.Settled? && a.move == Deferred(RotationNotReady)
  }

  predicate ToldHeadMoved(a: Answer) {
    a.Settled? && a.move == Deferred(HeadMovedOn)
  }

  predicate BadSignature(a: Answer) {
    a.Refusal? && a.trouble.badSignature
  }

  /** An answer as the self-heal reads it. */
  function ReplyOf(a: Answer): KeyCommands.Reply {
    match a
    case Silence => NoAnswer
    case Refusal(trouble) => Problem(trouble)
    case NoResult => Done(Head(Hosted, None, None, None, false), None)
    case Settled(_, head, pin) => Done(head, pin)
  }

  // ----- what is signed, and over what -----------------------------------------------------------

  /** The history names this address's ref and a hosted key. */
  predicate NamesHosted(h: Head) {
    h.ours && h.key.Some?
  }

  /** A head an adopt of this key is signed over. */
  predicate SignsOver(h: Head, key: Key) {
    if h.mode == Hosted then NamesHosted(h) else h.key != Some(key) && h.Signable()
  }

  function StatementOver(h: Head): Statement
    requires h.mode == Hosted ==> NamesHosted(h)
  {
    if h.mode == Hosted then InceptionOver(h.key.value) else RecoveryOver(h)
  }

  /** What goes out again after a refused statement, once the history names another hosted key. */
  function Resent(refused: Statement, h: Head): Statement {
    if NamesHosted(h) then InceptionOver(h.key.value) else refused
  }

  /** It is another statement exactly when the history names this address's ref and a hosted key. */
  lemma ResentExactly(custody: Key, h: Head)
    requires h.key != Some(custody)
    ensures Resent(InceptionOver(custody), h) != InceptionOver(custody) <==> NamesHosted(h)
  {
    if NamesHosted(h) {
      assert h.key == Some(h.key.value);
    }
  }

  /** A node that cannot derive the hosted key names none: the very statement that was refused is sent again. */
  lemma RefusedStatementIsResent()
    ensures var h := Head(Hosted, None, None, None, false);
            h.key != Some(Minted(0)) && Resent(InceptionOver(Minted(0)), h) == InceptionOver(Minted(0))
  {
    ResentExactly(Minted(0), Head(Hosted, None, None, None, false));
  }

  /** Every pointer an adopt's kept recovery is named from. */
  function RecoveryPointers(d: Disk, addr: Handle, sel: Handle, key: Key): (pointers: seq<Pointer>)
    ensures pointers != [] && pointers[0] == OfHandle(addr)
  {
    var held := Load(d, addr);
    [OfHandle(addr)] + (if sel == "" then [] else [OfHandle(sel)])
    + (if held.Some? && held.value != key then [OfKey(held.value)] else [])
  }

  /** The address's, the handle's when one was asked for, and the pointer of the key held when that is another. */
  lemma PointersExactly(d: Disk, addr: Handle, sel: Handle, key: Key, p: Pointer)
    ensures p in RecoveryPointers(d, addr, sel, key) <==>
      || p == OfHandle(addr) || (sel != "" && p == OfHandle(sel))
      || (p.OfKey? && Load(d, addr) == Some(p.key) && p.key != key)
  {
  }

  /** One of them names another kept key. */
  predicate OtherPending(d: Disk, pointers: seq<Pointer>, key: Key) {
    exists i | 0 <= i < |pointers| :: Pointed(d, pointers[i]) !in {None, Some(key)}
  }

  /** A head to sign over, with no other recovery in the way of one that would have to be kept. */
  predicate CanSign(d: Disk, h: Head, addr: Handle, sel: Handle, key: Key) {
    SignsOver(h, key) && (h.mode == Hosted || !OtherPending(d, RecoveryPointers(d, addr, sel, key), key))
  }

  /** A key's next key is none of what stands in the way. */
  lemma CanSignSame(d: Disk, h: Head, addr: Handle, sel: Handle, key: Key)
    ensures CanSign(d, h, addr, sel, key) == CanSign(EnsureNext(d, key), h, addr, sel, key)
  {
    LoadSame(d, EnsureNext(d, key), addr);
    assert forall p: Pointer :: Pointed(d, p) == Pointed(EnsureNext(d, key), p);
  }

  /** Keeping a key that has not moved on itself can only end the walk to the key held at it. */
  lemma {:induction false} FollowOrEnds(d: Disk, key: Key, k: Key, fuel: nat)
    requires key !in d.moved
    ensures Follow(d.(kept := d.kept + {key}), k, fuel) in {Follow(d, k, fuel), key}
    decreases fuel
  {
    if fuel > 0 && k in d.moved && d.moved[k] in d.kept {
      FollowOrEnds(d, key, d.moved[k], fuel - 1);
    }
  }

  /** Once named from every pointer, no other recovery is in the way. */
  lemma NoneInTheWay(d: Disk, d': Disk, addr: Handle, sel: Handle, key: Key)
    requires key !in d.moved && d'.handles == d.handles && d'.moved == d.moved && d'.kept == d.kept + {key}
    requires var pointers := RecoveryPointers(d, addr, sel, key);
             forall i | 0 <= i < |pointers| :: Pointed(d', pointers[i]) == Some(key)
    ensures !OtherPending(d', RecoveryPointers(d', addr, sel, key), key)
  {
    var kept := d.(kept := d.kept + {key});
    LoadSame(kept, d', addr);
    if addr in d.handles {
      FollowOrEnds(d, key, d.handles[addr], MAX_MOVES);
    }
    var pointers, after := RecoveryPointers(d, addr, sel, key), RecoveryPointers(d', addr, sel, key);
    forall i | 0 <= i < |after| ensures Pointed(d', after[i]) == Some(key) {
      assert i < |pointers| && pointers[i] == after[i];
    }
  }

  lemma OtherPendingSame(d: Disk, pointers: seq<Pointer>, key: Key)
    ensures OtherPending(d, pointers, key) == OtherPending(d.(kept := d.kept + {key}), pointers, key)
  {
    var kept := d.(kept := d.kept + {key});
    forall p: Pointer ensures Pointed(d, p) in {None, Some(key)} <==> Pointed(kept, p) in {None, Some(key)} {
    }
  }

  /** A recovery in effect stays so when another handle's file is written and a pointer goes. */
  lemma InEffectStays(d: Disk, d': Disk, h: Handle, cur: Option<Key>, key: Key)
    requires InEffect(d, h, cur, key)
    requires d'.kept == d.kept && d'.moved == d.moved
    requires h in d.handles ==> h in d'.handles && d'.handles[h] == d.handles[h]
    requires forall p <- d'.pending :: p in d.pending && d'.pending[p] == d.pending[p]
    ensures InEffect(d', h, cur, key)
  {
    if h in d.handles {
      FollowSame(d, d', d.handles[h], MAX_MOVES);
    }
  }

  lemma InEffectUnpoints(d: Disk, h: Handle, cur: Option<Key>, key: Key)
    requires InEffect(d, h, cur, key)
    ensures Pointed(d, OfHandle(h)) != Some(key)
  {
  }

  /** This host's key for a selector: the one its handle holds, or the recovery kept for it. */
  function KeyOnHost(d: Disk, sel: Handle): Option<Key> {
    var held := Load(d, sel);
    if held.Some? then held else Pointed(d, OfHandle(sel))
  }

  /** The connect opens with a statement only over the head read for the address the selector names. */
  predicate OpensWith(selection: Selection, read: HeadRead, key: Key, opening: Option<Statement>) {
    opening.Some? ==>
      selection.At? && read.Read? && SignsOver(read.head, key) && opening == Some(StatementOver(read.head))
  }

  /** Nothing needs to be signed, and nothing is to be tried again later. */
  predicate OpensUnsigned(selection: Selection, read: HeadRead, key: Key) {
    if !selection.At? then selection != Unresolved(true)
    else match read
         case Unreadable(retryable) => !retryable
         case Read(h) => !SignsOver(h, key)
         case _ => true
  }

  /** With every write done, a key this host has or may mint signs over the head read, if it is one to sign
      over and no other recovery is in the way. */
  predicate MustSign(d: Disk, selection: Selection, read: HeadRead, sel: Handle, key: Key) {
    selection.At? && read.Read? && CanSign(d, read.head, selection.addr, sel, key)
  }

  // ----- what a run's log looks like --------------------------------------------------------------

  predicate AllSigned(log: seq<Sent>) {
    forall s <- log :: s.statement.Some?
  }

  /** Only the last send may be unsigned, and after a signed one only when that was told to wait. */
  predicate NeverSilentlyUnsigned(log: seq<Sent>) {
    && |log| <= 3
    && forall i | 0 <= i < |log| && log[i].statement.None? ::
         i == |log| - 1 && (i > 0 ==> log[i - 1].statement.Some? && ToldToWait(log[i - 1].answer))
  }

  /** An unsigned send after a run's signed ones, told to wait, is its last. */
  lemma WaitEndsTheLog(before: seq<Sent>, wasSigned: bool, answer: Answer, unsigned: Sent)
    requires before != [] && before[|before| - 1].answer == answer && unsigned.statement.None?
    requires if wasSigned then AllSigned(before) && |before| <= 2 else NeverSilentlyUnsigned(before)
    ensures NeverSilentlyUnsigned(if wasSigned && ToldToWait(answer) then before + [unsigned] else before)
  {
  }

  lemma UnsignedIsLast(log: seq<Sent>)
    requires NeverSilentlyUnsigned(log)
    ensures |log| <= 3
    ensures forall i, j | 0 <= i < j < |log| && (log[i].statement.None? || log[j].statement.None?) ::
              log[i].statement.Some? && j == |log| - 1 && ToldToWait(log[j - 1].answer)
  {
  }

  lemma SignedLog(log: seq<Sent>)
    requires AllSigned(log) && |log| <= 3
    ensures NeverSilentlyUnsigned(log)
  {
  }

  class Adopt {
    const host: Host
    const service: Service
    const sel: Handle
    const adopt: bool
    const borrowed: bool
    const outgoing: Option<Key>
    const quiet: bool
    var addr: Handle
    var key: Key
    var unstored: bool
    var carries: Option<Statement>
    var proof: Option<Key>
    var signed: bool
    var resigned: bool
    var hosted: bool
    var custody: Option<Key>
    var kept: bool
    var prior: Option<Key>
    var log: seq<Sent>
    var looked: nat

    constructor (host: Host, service: Service, sel: Handle, borrowed: bool, outgoing: Option<Key>, quiet: bool)
      requires outgoing.Some? ==> Secured(host.now, outgoing.value)
      ensures this.host == host && this.service == service && this.sel == sel && this.borrowed == borrowed
      ensures this.outgoing == outgoing && this.quiet == quiet && log == [] && looked == 0
      ensures unstored && !resigned && !kept && !signed
      ensures Prepared()
    {
      this.host, this.service, this.sel, this.borrowed, this.outgoing := host, service, sel, borrowed, outgoing;
      this.quiet := quiet;
      adopt, addr, key, unstored, carries, proof := true, sel, Minted(0), true, None, None;
      signed, resigned, hosted, custody, kept, prior := false, false, false, None, false, None;
      log, looked := [], 0;
    }

    /** The key, and its next key when the request carries a statement that commits to it, are stored, and so
        is the outgoing key of a rotation's first phase. */
    ghost predicate Sendable()
      reads this, host
    {
      && Secured(host.now, key) && (carries.Some? ==> key in host.now.disk.nexts)
      && OutgoingHeld(host.now)
    }

    /** The arguments carry a statement exactly when the plan is signed, and then the key that signed it
        is stored with its next key; an adopt carries no proof by the held key. */
    ghost predicate Prepared()
      reads this, host
    {
      && adopt && proof.None?
      && (carries.Some? <==> signed)
      && (!unstored ==> Secured(host.now, key)) && OutgoingHeld(host.now)
      && (signed ==> key in host.now.disk.nexts)
      && (signed && hosted ==> custody.Some? && carries == Some(InceptionOver(custody.value)))
      && (kept ==> !unstored)
    }

    predicate OutgoingHeld(s: State) {
      outgoing.Some? ==> Secured(s, outgoing.value)
    }

    /** What this connect holds of the store stays whatever the other commands do. */
    lemma Steady(before: State)
      requires Leads(before, host.now)
      ensures key in before.disk.kept ==> key in host.now.disk.kept
      ensures key in before.disk.nexts ==> key in host.now.disk.nexts
      ensures Secured(before, key) ==> Secured(host.now, key)
      ensures OutgoingHeld(before) ==> OutgoingHeld(host.now)
    {
      StillStored(before, host.now, key);
      if outgoing.Some? {
        StillStored(before, host.now, outgoing.value);
      }
    }

    /** The log is what was answered, and no request of it carried a proof. */
    ghost predicate Heard()
      reads this
    {
      forall i | 0 <= i < |log| :: log[i].answer == service.answers(i) && log[i].proof.None?
    }

    // ----- one connect, and how it is healed ------------------------------------------------------------

    method ConnectOnce() returns (answer: Answer)
      requires Sendable()
      modifies this`log, host
      ensures Leads(old(host.now), host.now) && Sendable()
      ensures answer == service.answers(|old(log)|) && log == old(log) + [Sent(carries, proof, answer)]
      ensures quiet ==> host.now.disk == old(host.now).disk
    {
      hide Leads, Secured;
      ghost var before := host.now;
      host.Disclose(key, carries.Some?, quiet);
      Steady(before);
      answer := service.answers(|log|);
      log := log + [Sent(carries, proof, answer)];
    }

    /** The arm of the self-heal an answer takes. */
    function ArmFor(answer: Answer): Arm
      reads this
    {
      if answer.Refusal? then HealArm(Args(adopt, carries.Some?, proof.Some?, borrowed), answer.trouble) else GiveUp
    }

    /** One request for each of these keys, with its proof, the first of them numbered `from`. */
    function Tries(statement: Option<Statement>, tried: seq<Key>, from: nat): (sent: seq<Sent>)
      ensures |sent| == |tried|
      ensures forall i | 0 <= i < |sent| :: sent[i] == Sent(statement, Some(tried[i]), service.answers(from + i))
    {
      seq(|tried|, i requires 0 <= i < |tried| => Sent(statement, Some(tried[i]), service.answers(from + i)))
    }

    /** Each key the service may have moved to unseen proves the same request once, until an answer names it. */
    method ConnectAsSuccessor(refused: Answer) returns (answer: Answer, tried: seq<Key>)
      requires Sendable()
      modifies this`proof, this`log, host
      ensures Leads(old(host.now), host.now) && Sendable()
      ensures log == old(log) + Tries(carries, tried, |old(log)|) && |tried| <= 3
      ensures tried <= Candidates(old(host.now).disk, key, outgoing)
      ensures forall i | 0 <= i < |tried| - 1 :: !Proves(ReplyOf(service.answers(|old(log)| + i)), tried[i])
      ensures var n, last := |old(log)|, |tried| - 1;
              if tried != [] && Proves(ReplyOf(service.answers(n + last)), tried[last])
              then proof == Some(tried[last]) && answer == service.answers(n + last)
              else proof == old(proof) && answer == refused
    {
      hide Leads, MoveInLog, SuccessorList, Candidates, Secured, Proves, ReplyOf, Tries, KeysOf, Next, RecordsMove;
      ghost var before := host.now;
      var n := |log|;
      var replies := (i: nat) => ReplyOf(service.answers(n + i));
      var healed, found, _ := host.HealWithSuccessor(key, outgoing, replies, service.history, quiet);
      Steady(before);
      tried, answer := found, refused;
      assert forall i: nat | i < |tried| :: replies(i) == ReplyOf(service.answers(n + i));
      log := log + Tries(carries, tried, n);
      if healed.Some? {
        proof, answer := healed, service.answers(|log| - 1);
      }
    }

    /** What an arm of the self-heal makes of a refused request, after the sends before it. */
    ghost predicate HealedBy(arm: Arm, before: seq<Sent>, carried: Option<Statement>, proved: Option<Key>,
                             refused: Answer, answer: Answer)
      reads this`log, this`carries, this`proof
    {
      var next := service.answers(|before|);
      match arm
      case GiveUp => log == before && answer == refused && carries == carried && proof == proved
      case AsBirthPin =>
        log == before + [Sent(carried, None, next)] && answer == next && carries == carried && proof.None?
      case StripEvent =>
        log == before + [Sent(None, proved, next)] && answer == next && carries.None? && proof == proved
      case TrySuccessors =>
        && before <= log && |log| <= |before| + 3 && carries == carried
        && (log == before ==> answer == refused)
        && forall i | |before| <= i < |log| ::
             log[i].statement == carried && log[i].proof.Some? && log[i].answer == service.answers(i)
    }

    /** A refused connect, healed: a proof no pin is held for goes again as a birth, a refused birth without its
        event, a refused key with its successors' proofs. */
    method HealRefusal(refused: Answer) returns (answer: Answer)
      requires Sendable()
      modifies this`carries, this`proof, this`log, host
      ensures Leads(old(host.now), host.now) && Sendable()
      ensures HealedBy(old(ArmFor(refused)), old(log), old(carries), old(proof), refused, answer)
      ensures quiet && old(ArmFor(refused)) != TrySuccessors ==> host.now.disk == old(host.now).disk
    {
      hide Leads, Secured, Proves, ReplyOf, SuccessorList, Candidates, HealArm, Tries;
      LeadsToItself(host.now);
      match ArmFor(refused) {
        case GiveUp =>
          answer := refused;
        case AsBirthPin =>
          proof := None;
          answer := ConnectOnce();
        case StripEvent =>
          carries := None;
          answer := ConnectOnce();
        case TrySuccessors =>
          var tried;
          answer, tried := ConnectAsSuccessor(refused);
      }
    }

    /** Sends one connect, and what its refusal may be healed by. */
    method ConnectWithSelfHeal() returns (answer: Answer)
      requires Sendable()
      modifies this`carries, this`proof, this`log, host
      ensures Leads(old(host.now), host.now) && Sendable()
      ensures var first := service.answers(|old(log)|);
              HealedBy(old(ArmFor(service.answers(|log|))), old(log) + [Sent(old(carries), old(proof), first)],
                       old(carries), old(proof), first, answer)
      ensures quiet && old(ArmFor(service.answers(|log|))) != TrySuccessors ==> host.now.disk == old(host.now).disk
    {
      hide Leads, Secured, HealedBy, HealArm;
      ghost var before := host.now;
      answer := ConnectOnce();
      ghost var first := host.now;
      answer := HealRefusal(answer);
      LeadsThrough(before, first, host.now);
    }

    /** An adopt, as prepared, goes out exactly once whatever it is refused for: it is never healed. */
    method Connect() returns (answer: Answer)
      requires Prepared() && !unstored && Heard()
      modifies this`carries, this`proof, this`log, host
      ensures Leads(old(host.now), host.now) && Prepared() && Heard()
      ensures carries == old(carries) && proof == old(proof)
      ensures answer == service.answers(|old(log)|) && log == old(log) + [Sent(carries, None, answer)]
      ensures quiet ==> host.now.disk == old(host.now).disk
    {
      hide Leads, Secured;
      HealedExactly(Args(adopt, carries.Some?, proof.Some?, borrowed));
      assert ArmFor(service.answers(|log|)) == GiveUp;
      ghost var before := host.now;
      answer := ConnectWithSelfHeal();
      Steady(before);
    }

    // ----- the key an adopt sends -----------------------------------------------------------------

    /** This host's key for the selector, the recovery kept for it, or one minted and not stored yet. */
    method PrepareIdentityKey() returns (ok: bool)
      requires Prepared() && !signed && !kept
      modifies this`key, this`unstored
      ensures Prepared()
      ensures var known := KeyOnHost(host.now.disk, sel);
              if known.Some? then ok && !unstored && key == known.value
              else ok == !borrowed && (ok ==> unstored && key.Minted? && Unseen(host.now, key))
    {
      LoadSecured(host.now, sel);
      var held, pending := Load(host.now.disk, sel), Pointed(host.now.disk, OfHandle(sel));
      if held.Some? {
        key, unstored := held.value, false;
      } else if pending.Some? {
        key, unstored := pending.value, false;
      } else if borrowed {
        return false;
      } else {
        key := host.Mint();
        unstored := true;
      }
      return true;
    }

    /** A key that cannot be stored is never sent. */
    method StoreAdoptedKey() returns (ok: bool)
      requires Prepared()
      modifies this`unstored, host
      ensures Leads(old(host.now), host.now) && Prepared()
      ensures ok ==> !unstored
      ensures !old(unstored) ==> ok && host.now == old(host.now)
      ensures old(unstored) && quiet && ok ==> Reaches(host.now.disk, sel, key)
      ensures host.sound && quiet && sel !in old(host.now).disk.handles ==> ok
    {
      LeadsToItself(host.now);
      if !unstored {
        return true;
      }
      ghost var before := host.now;
      var linked := host.Link(sel, key, quiet);
      Steady(before);
      if linked.Ok? {
        unstored := false;
      }
      return linked.Ok?;
    }

    /** No other recovery is pending at any pointer this one would be named from. */
    predicate Unhindered(d: Disk)
      reads this`addr, this`key
    {
      !OtherPending(d, RecoveryPointers(d, addr, sel, key), key)
    }

    /** Keeps the adopted key as a pending recovery, named from every pointer; another recovery pending at
        one of them stops it, and every pointer stays as it was. */
    method KeepAdoptRecovery() returns (ok: bool)
      requires Prepared()
      modifies this`unstored, this`kept, this`prior, host
      ensures Leads(old(host.now), host.now) && Prepared()
      ensures ok ==> kept && key in host.now.disk.kept
      ensures !ok ==> kept == old(kept) && unstored == old(unstored) && prior == old(prior)
      ensures quiet ==>
        var pointers := RecoveryPointers(old(host.now).disk, addr, sel, key);
        && (OtherPending(old(host.now).disk, pointers, key) ==>
              !ok && host.now.disk.pending == old(host.now).disk.pending)
        && (host.sound && !OtherPending(old(host.now).disk, pointers, key) ==> ok)
        && (ok ==> forall i | 0 <= i < |pointers| :: Pointed(host.now.disk, pointers[i]) == Some(key))
        && (ok && key !in old(host.now).disk.moved ==> Unhindered(host.now.disk))
    {
      hide Leads, OtherPending, RecoveryPointers;
      ghost var before := host.now;
      LeadsToItself(host.now);
      var held := Load(host.now.disk, addr);
      var pointers := RecoveryPointers(host.now.disk, addr, sel, key);
      ok := host.Try(Keep(key), true, quiet);
      Steady(before);
      if !ok {
        return;
      }
      OtherPendingSame(before.disk, pointers, key);
      if OtherPending(host.now.disk, pointers, key) {
        return false;
      }
      ghost var read := host.now;
      ok := host.PointAll(pointers, key, quiet);
      LeadsThrough(before, read, host.now);
      Steady(read);
      if !ok {
        return;
      }
      assert OnDisk(host.now.disk, key);
      if quiet && key !in before.disk.moved {
        NoneInTheWay(before.disk, host.now.disk, addr, sel, key);
      }
      prior, kept, unstored := if held == Some(key) then None else held, true, false;
    }

    /** The hosted identity's adopt inception. A head that names no ref of this address, or no hosted key,
        leaves the plan and the arguments as they were. */
    method SignHostedAdopt(h: Head) returns (ok: bool)
      requires Prepared()
      modifies this`carries, this`signed, this`hosted, this`custody, host
      ensures Leads(old(host.now), host.now) && Prepared()
      ensures !NamesHosted(h) ==> ok && host.now == old(host.now)
      ensures NamesHosted(h) && borrowed ==> !ok
      ensures host.sound && !borrowed ==> ok
      ensures quiet ==> host.now.disk.handles == old(host.now).disk.handles
      ensures if ok && NamesHosted(h)
              then signed && hosted && carries == Some(InceptionOver(h.key.value)) && custody == h.key
              else carries == old(carries) && signed == old(signed) && hosted == old(hosted) && custody == old(custody)
    {
      hide Leads, Secured;
      LeadsToItself(host.now);
      if !NamesHosted(h) {
        return true;
      }
      if borrowed {
        return false;
      }
      ghost var before := host.now;
      ok := host.Try(MintNext(key), true, quiet);
      Steady(before);
      if ok {
        carries, signed, hosted, custody := Some(InceptionOver(h.key.value)), true, true, h.key;
      }
    }

    /** Stores the key's next key and keeps the key as a pending recovery, before a recovery is signed. */
    method PrepareRecovery() returns (ok: bool)
      requires Prepared() && !borrowed
      modifies this`unstored, this`kept, this`prior, host
      ensures Leads(old(host.now), host.now) && Prepared()
      ensures !old(unstored) ==> !unstored
      ensures ok ==> kept && key in host.now.disk.kept && key in host.now.disk.nexts
      ensures var d := EnsureNext(old(host.now).disk, key);
              host.sound && quiet && !OtherPending(d, RecoveryPointers(d, addr, sel, key), key) ==> ok
      ensures quiet && ok && key !in old(host.now).disk.moved ==> Unhindered(host.now.disk)
    {
      hide Leads, Secured;
      ghost var before := host.now;
      ok := host.Try(MintNext(key), true, quiet);
      Steady(before);
      if !ok {
        return;
      }
      ghost var minted := host.now;
      ok := KeepAdoptRecovery();
      LeadsThrough(before, minted, host.now);
      Steady(minted);
    }

    /** Signs over this head, from scratch: whatever was signed before is withdrawn first. It fails, or signs
        exactly when this is a head to sign over. */
    method SignAdopt(h: Head) returns (ok: bool)
      requires Prepared()
      modifies this`carries, this`signed, this`hosted, this`custody, this`unstored, this`kept, this`prior, host
      ensures Leads(old(host.now), host.now) && Prepared()
      ensures !old(unstored) ==> !unstored
      ensures !SignsOver(h, key) ==> ok
      ensures !SignsOver(h, key) && !old(RecoveryDue(host.now.disk)) ==> host.now == old(host.now)
      ensures SignsOver(h, key) && borrowed ==> !ok
      ensures host.sound && quiet && h.mode != Hosted && h.key == Some(key) && old(RecoveryDue(host.now.disk))
              && old(Keepable(host.now.disk, addr, Replaced(host.now.disk), key)) ==>
                !kept && InEffect(host.now.disk, addr, old(Replaced(host.now.disk)), key)
      ensures host.sound && quiet && !borrowed && CanSign(old(host.now).disk, h, addr, sel, key) ==> signed
      ensures quiet && h.mode == Hosted ==> host.now.disk.handles == old(host.now).disk.handles
      ensures signed && h.mode != Hosted ==> !unstored
      ensures signed <==> ok && SignsOver(h, key)
      ensures signed ==> carries == Some(StatementOver(h)) && (hosted <==> h.mode == Hosted)
      ensures signed && !hosted ==> kept && key in host.now.disk.kept
      ensures quiet && signed && !hosted && key !in old(host.now).disk.moved ==> Unhindered(host.now.disk)
    {
      hide Leads, Secured;
      LeadsToItself(host.now);
      carries, signed, hosted := None, false, false;
      if h.mode == Hosted {
        ok := SignHostedAdopt(h);
        return;
      }
      if h.key == Some(key) {
        FinishKeptRecovery();
        return true;
      }
      if !h.Signable() {
        return true;
      }
      if borrowed {
        return false;
      }
      CanSignSame(host.now.disk, h, addr, sel, key);
      ok := PrepareRecovery();
      if ok {
        carries, signed := Some(RecoveryOver(h)), true;
      }
    }

    /** A recovery of this key is kept for the address: by this run, or by an earlier one. */
    predicate RecoveryDue(d: Disk)
      reads this`kept, this`addr, this`key
    {
      kept || Pointed(d, OfHandle(addr)) == Some(key)
    }

    /** The key such a recovery replaces. */
    function Replaced(d: Disk): Option<Key>
      reads this`kept, this`addr, this`key, this`prior
    {
      var held := Load(d, addr);
      if !kept && held.Some? && held.value != key then held else prior
    }

    /** Under the handle too: its pointer to the key gone, the key found there unless another key's file is in the
        way, and no other handle given one. */
    predicate AtHandle(was: Disk, end: Disk)
      reads this`addr, this`key
    {
      && (sel != "" ==> Pointed(end, OfHandle(sel)) != Some(key))
      && (sel != "" && sel != addr && sel !in was.handles ==> Reaches(end, sel, key))
      && forall h <- end.handles :: h in was.handles || h == addr || (h == sel && sel != "")
    }

    /** Records a kept recovery that took effect, and forgets its pointers; with none of this key's kept, nothing
        is done. */
    method FinishKeptRecovery()
      requires Prepared()
      modifies this`kept, this`prior, host
      ensures Leads(old(host.now), host.now) && Prepared()
      ensures kept ==> old(kept)
      ensures !old(RecoveryDue(host.now.disk)) ==> host.now == old(host.now) && prior == old(prior)
      ensures old(RecoveryDue(host.now.disk)) ==> prior == old(Replaced(host.now.disk))
      ensures quiet && old(kept) && !kept ==> InEffect(host.now.disk, addr, prior, key)
      ensures quiet && kept ==> host.now == old(host.now)
      ensures quiet && host.sound && old(RecoveryDue(host.now.disk)) ==>
                if Keepable(old(host.now).disk, addr, prior, key)
                then !kept && InEffect(host.now.disk, addr, prior, key) && AtHandle(old(host.now).disk, host.now.disk)
                else host.now == old(host.now) && kept == old(kept)
    {
      hide Leads, Secured, InEffect, Keepable;
      ghost var before := host.now;
      LeadsToItself(host.now);
      if !kept {
        if Pointed(host.now.disk, OfHandle(addr)) != Some(key) {
          return;
        }
        var held := Load(host.now.disk, addr);
        if held.Some? && held.value != key {
          prior := held;
        }
      }
      var stored := host.KeepRecovered(addr, prior, key, quiet);
      Steady(before);
      if stored.Err? {
        return;
      }
      if quiet {
        InEffectUnpoints(host.now.disk, addr, prior, key);
      }
      if sel != "" && sel != addr {
        ghost var read := host.now;
        FinishHandle();
        LeadsThrough(before, read, host.now);
        if quiet {
          InEffectStays(read.disk, host.now.disk, addr, prior, key);
        }
      }
      kept := false;
    }

    /** The key under the handle too, and the handle's pointer gone whether or not it could be linked. */
    method FinishHandle()
      requires Prepared()
      modifies host
      ensures Leads(old(host.now), host.now) && Prepared()
      ensures quiet ==>
        var was, end := old(host.now).disk, host.now.disk;
        && end.kept == was.kept && end.moved == was.moved
        && (forall h <- was.handles :: h in end.handles && end.handles[h] == was.handles[h])
        && (forall p <- end.pending :: p in was.pending && end.pending[p] == was.pending[p])
        && Pointed(end, OfHandle(sel)) != Some(key)
        && (forall h <- end.handles :: h in was.handles || h == sel)
        && (host.sound && sel !in was.handles ==> Reaches(end, sel, key))
    {
      hide Leads, Secured;
      ghost var before := host.now;
      var _ := host.Link(sel, key, quiet);
      ghost var linked := host.now;
      host.Forget(OfHandle(sel), key, quiet);
      LeadsThrough(before, linked, host.now);
      Steady(before);
    }

    /** The same adopt went unsigned instead: the recovery it kept is no longer pending. */
    method DropKeptRecovery()
      requires Prepared()
      modifies this`kept, host
      ensures Leads(old(host.now), host.now) && Prepared() && !kept
      ensures quiet && old(kept) ==>
        && Pointed(host.now.disk, OfHandle(addr)) != Some(key)
        && (prior.Some? ==> Pointed(host.now.disk, OfKey(prior.value)) != Some(key))
        && (host.sound ==> AtHandle(old(host.now).disk, host.now.disk))
      ensures !old(kept) ==> host.now == old(host.now)
    {
      hide Leads, Secured;
      ghost var before := host.now;
      LeadsToItself(host.now);
      if !kept {
        return;
      }
      host.ForgetRecovery(addr, prior, key, quiet);
      if sel != "" {
        ghost var read := host.now;
        ForgetHandle();
        LeadsThrough(before, read, host.now);
      }
      Steady(before);
      kept := false;
    }

    method ForgetHandle()
      modifies host
      ensures Leads(old(host.now), host.now)
      ensures quiet ==>
        && host.now.disk.kept == old(host.now).disk.kept
        && host.now.disk.pending == Dropped(old(host.now).disk, OfHandle(sel), key).pending
        && (forall h <- host.now.disk.handles :: h in old(host.now).disk.handles || h == sel)
        && (host.sound && sel !in old(host.now).disk.handles ==> Reaches(host.now.disk, sel, key))
    {
      hide Leads;
      ghost var before := host.now;
      host.Forget(OfHandle(sel), key, quiet);
      ghost var read := host.now;
      var _ := host.Link(sel, key, quiet);
      LeadsThrough(before, read, host.now);
    }

    // ----- the plan, and what its answers lead to ---------------------------------------------------

    method ReadHead() returns (read: HeadRead)
      requires Prepared()
      modifies this`looked, host
      ensures Leads(old(host.now), host.now) && Prepared()
      ensures read == service.heads(old(looked)) && looked == old(looked) + 1
      ensures quiet ==> host.now == old(host.now)
    {
      ghost var before := host.now;
      host.Others(quiet);
      Steady(before);
      read := service.heads(looked);
      looked := looked + 1;
    }

    /** Decides, before anything is sent, what the connect carries. It fails when an address or a history
        cannot be read just now; with a head read it fails, or carries a statement over that head exactly when
        it is one to sign over; anything else leaves it unsigned. */
    method PlanAdopt(selection: Selection) returns (ok: bool)
      requires Prepared() && !signed && !kept
      modifies this`addr, this`carries, this`signed, this`hosted, this`custody, this`unstored, this`kept, this`prior
      modifies this`looked, host
      ensures Leads(old(host.now), host.now) && Prepared()
      ensures !selection.At? ==> !signed && looked == old(looked) && (ok <==> selection != Unresolved(true))
      ensures !old(unstored) ==> !unstored
      ensures quiet && (selection.At? ==> !service.heads(old(looked)).Read?) ==> host.now == old(host.now)
      ensures selection.At? ==> addr == selection.addr && looked == old(looked) + 1
      ensures selection.At? ==>
        match service.heads(old(looked))
        case Unreadable(retryable) => !signed && ok == !retryable
        case Read(h) =>
          && (!SignsOver(h, key) ==> ok) && (SignsOver(h, key) && borrowed ==> !ok)
          && (signed <==> ok && SignsOver(h, key))
          && (signed ==> carries == Some(StatementOver(h)))
          && (host.sound && quiet && !borrowed && CanSign(old(host.now).disk, h, addr, sel, key) ==> signed)
          && (quiet && signed && h.mode == Hosted ==> host.now.disk.handles == old(host.now).disk.handles)
          && (signed && h.mode != Hosted ==> !unstored)
          && (signed ==> (hosted <==> h.mode == Hosted))
          && (quiet && !SignsOver(h, key) && Pointed(old(host.now).disk, OfHandle(selection.addr)) != Some(key) ==>
                host.now == old(host.now))
          && (quiet && signed && !hosted && key !in old(host.now).disk.moved ==> Unhindered(host.now.disk))
        case _ => !signed && ok
    {
      hide Leads, Secured;
      LeadsToItself(host.now);
      if !selection.At? {
        return selection != Unresolved(true);
      }
      addr := selection.addr;
      ghost var before := host.now;
      var read := ReadHead();
      if !read.Read? {
        return read != Unreadable(true);
      }
      ghost var asked := host.now;
      ok := SignAdopt(read.head);
      LeadsThrough(before, asked, host.now);
    }

    /** The signed sends so far: one, and one more for the one re-signing a run may make. */
    ghost predicate OnTrack(answer: Answer)
      reads this
    {
      && Heard()
      && log != [] && log[|log| - 1].answer == answer
      && (if signed then AllSigned(log) && |log| <= (if resigned then 2 else 1) else NeverSilentlyUnsigned(log))
    }

    /** A refused hosted inception that a moved hosted key may explain. */
    predicate MayResign(refused: Answer)
      reads this
    {
      signed && hosted && !resigned && BadSignature(refused)
    }

    /** The history read after such a refusal names another hosted key, or none. */
    predicate CustodyMoved(read: HeadRead)
      reads this
    {
      read.Read? && read.head.mode == Hosted && read.head.key != custody
    }

    /** A hosted inception whose signature could not be verified may name a hosted key that has since moved. The
        history is read once for it: when that names another hosted key than the one signed over, a statement
        goes out again, once. It is over the key read when the history names ref and key, and otherwise the very
        statement that was refused. */
    method ResignHostedAdopt(refused: Answer) returns (answer: Answer)
      requires Prepared() && !unstored && OnTrack(refused)
      modifies this`resigned, this`carries, this`proof, this`signed, this`hosted, this`custody, this`log
      modifies this`looked, host
      ensures Leads(old(host.now), host.now) && Prepared() && OnTrack(answer)
      ensures looked == old(looked) + (if old(MayResign(refused)) then 1 else 0)
      ensures log == old(log) ==> answer == refused
      ensures log == old(log) || (
                && old(MayResign(refused)) && old(CustodyMoved(service.heads(looked)))
                && answer == service.answers(|old(log)|)
                && var h := service.heads(old(looked)).head;
                   log == old(log) + [Sent(Some(Resent(old(carries).value, h)), None, answer)]
                   && (log[|old(log)|].statement != old(carries) <==> NamesHosted(h)))
      ensures (&& old(MayResign(refused)) && old(CustodyMoved(service.heads(looked)))
               && (!NamesHosted(service.heads(old(looked)).head) || (host.sound && !borrowed))) ==> log != old(log)
      ensures log != old(log) ==> signed && hosted && resigned
      ensures !old(MayResign(refused)) ==> resigned == old(resigned) && signed == old(signed) && hosted == old(hosted)
    {
      hide Leads, Secured, NeverSilentlyUnsigned;
      LeadsToItself(host.now);
      answer := refused;
      if !MayResign(refused) {
        return;
      }
      resigned := true;
      ghost var before := host.now;
      var read := ReadHead();
      if !CustodyMoved(read) {
        return;
      }
      ResentExactly(custody.value, read.head);
      ghost var asked := host.now;
      var ok := SignHostedAdopt(read.head);
      LeadsThrough(before, asked, host.now);
      if !ok {
        return;
      }
      asked := host.now;
      answer := Connect();
      LeadsThrough(before, asked, host.now);
    }

    /** What a connect's answer adds to the log when no statement is to be signed again: one unsigned send
        exactly when a signed one was told to wait. */
    ghost predicate Follows(before: seq<Sent>, after: seq<Sent>, wasSigned: bool, answer: Answer) {
      after == if wasSigned && ToldToWait(answer)
               then before + [Sent(None, None, service.answers(|before|))] else before
    }

    /** The one re-signing: nothing goes out, or a statement over the head read, and what its answer adds. */
    ghost predicate FollowsSigned(before: seq<Sent>, after: seq<Sent>, read: HeadRead, wasHosted: bool, ended: Ended)
      reads this`key
    {
      if after == before then ended == FailedToConnect <==> SignsAgain(read, wasHosted)
      else
        && SignsAgain(read, wasHosted)
        && var again := service.answers(|before|);
           var sent := before + [Sent(Some(StatementOver(read.head)), None, again)];
           Follows(sent, after, true, again) && (ended == Connected <==> !NotTaken(after[|after| - 1].answer))
    }

    /** The head that moved is one to sign over again: not a hosted identity's that took a key of its own. */
    predicate SignsAgain(read: HeadRead, wasHosted: bool)
      reads this`key
    {
      read.Read? && SignsOver(read.head, key) && (wasHosted ==> read.head.mode == Hosted)
    }

    /** Signs again over a head that moved under the statement. Nothing is sent when the history cannot be
        read, when the hosted identity took another key meanwhile, when the head is none to sign over, or when
        what a statement needs could not be stored. */
    method ResignMovedHead() returns (again: Option<Answer>, ended: Ended)
      requires Prepared() && !unstored && signed && !resigned && Heard()
      modifies this`resigned, this`carries, this`proof, this`signed, this`hosted, this`custody, this`unstored
      modifies this`kept, this`prior, this`log, this`looked, host
      ensures Leads(old(host.now), host.now) && Prepared() && !unstored && resigned && Heard()
      ensures looked == old(looked) + 1
      ensures var read := service.heads(old(looked));
              var told := read.Read? && !(old(hosted) && read.head.mode != Hosted);
              if told && signed
              then SignsOver(read.head, key) && again == Some(service.answers(|old(log)|))
                   && log == old(log) + [Sent(Some(StatementOver(read.head)), None, again.value)]
              else again.None? && log == old(log)
                   && (ended == FailedToConnect <==> told && SignsOver(read.head, key))
                   && !(told && host.sound && quiet && !borrowed
                        && CanSign(old(host.now).disk, read.head, addr, sel, key))
    {
      hide Leads, Secured;
      LeadsToItself(host.now);
      ghost var before := host.now;
      resigned, again, ended := true, None, Connected;
      var read := ReadHead();
      if !read.Read? || (hosted && read.head.mode != Hosted) {
        return;
      }
      ghost var asked := host.now;
      var ok := SignAdopt(read.head);
      LeadsThrough(before, asked, host.now);
      if !signed {
        ended := if ok then Connected else FailedToConnect;
        return;
      }
      asked := host.now;
      var answer := Connect();
      LeadsThrough(before, asked, host.now);
      again := Some(answer);
    }

    /** What the service did with an adopt that needs no other statement. A move in effect is finished here;
        a service that does not record key events yet takes the request unsigned; anything else changes
        nothing. */
    method SettleMove(answer: Answer) returns (ended: Ended)
      requires Prepared() && !unstored && Heard() && !NotTaken(answer)
      modifies this`carries, this`proof, this`signed, this`kept, this`prior, this`log, host
      ensures Leads(old(host.now), host.now) && Prepared() && Heard()
      ensures Follows(old(log), log, old(signed), answer)
      ensures signed == (old(signed) && !ToldToWait(answer))
      ensures ended == Connected <==> log == old(log) || !NotTaken(log[|log| - 1].answer)
      ensures old(signed) && answer.Settled? && answer.move == MovedNow && quiet && old(kept) ==>
                if kept then host.now == old(host.now) else InEffect(host.now.disk, addr, old(prior), key)
      ensures old(signed) && answer.Settled? && answer.move == MovedNow && quiet && host.sound && old(kept) ==>
                (kept <==> !Keepable(old(host.now).disk, addr, old(prior), key))
      ensures old(signed) && ToldToWait(answer) && ended == Connected ==> !kept
      ensures log == old(log) && !(answer.Settled? && answer.move == MovedNow) ==> host.now == old(host.now)
    {
      hide Leads, Secured, InEffect;
      LeadsToItself(host.now);
      ghost var before := host.now;
      ended := Connected;
      if !signed || !answer.Settled? {
        return;
      }
      if answer.move == MovedNow {
        FinishKeptRecovery();
      } else if answer.move == Deferred(RotationNotReady) {
        carries, signed := None, false;
        var unsigned := Connect();
        if NotTaken(unsigned) {
          return FailedToConnect;
        }
        ghost var read := host.now;
        DropKeptRecovery();
        LeadsThrough(before, read, host.now);
      }
    }

    /** Reads what the service did with the adopt. The head moving under the statement is signed again once,
        over the one head read for it; every other outcome adds what it says, and nothing more. */
    method SettleAdopt(answer: Answer) returns (ended: Ended)
      requires Prepared() && !unstored && OnTrack(answer) && !NotTaken(answer)
      modifies this`resigned, this`carries, this`proof, this`signed, this`hosted, this`custody, this`unstored
      modifies this`kept, this`prior, this`log, this`looked, host
      ensures Leads(old(host.now), host.now) && Prepared() && Heard()
      ensures NeverSilentlyUnsigned(log) && old(log) <= log
      ensures if old(signed) && ToldHeadMoved(answer) && !old(resigned)
              then
                var read := service.heads(old(looked));
                && looked == old(looked) + 1 && FollowsSigned(old(log), log, read, old(hosted), ended)
                && ((&& host.sound && quiet && !borrowed && SignsAgain(read, old(hosted))
                     && CanSign(old(host.now).disk, read.head, addr, sel, key)) ==> log != old(log))
              else
                && looked == old(looked) && Follows(old(log), log, old(signed), answer)
                && (ended == Connected <==> log == old(log) || !NotTaken(log[|log| - 1].answer))
      ensures ended == Connected ==> !NotTaken(log[|log| - 1].answer)
      ensures host.sound && quiet && !borrowed && (old(signed && !hosted) ==> old(Unhindered(host.now.disk))) ==>
                Course(log, ended, looked)
                == AnsweredCourse(old(log), old(signed), old(hosted), old(resigned), answer, old(looked))
    {
      hide Leads, Secured, NeverSilentlyUnsigned, SignsOver;
      LeadsToItself(host.now);
      ghost var before := host.now;
      var told := answer;
      if signed && ToldHeadMoved(answer) && !resigned {
        var again;
        again, ended := ResignMovedHead();
        SignedLog(log);
        if again.None? {
          return;
        }
        if NotTaken(again.value) {
          return FailedToConnect;
        }
        told := again.value;
      }
      WaitEndsTheLog(log, signed, told, Sent(None, None, service.answers(|log|)));
      ghost var read := host.now;
      ended := SettleMove(told);
      LeadsThrough(before, read, host.now);
    }

    // ----- the course of a run nothing stands in the way of ------------------------------------------

    /** What an answered request leads to when no statement is to be signed again. */
    function LastCourse(sent: seq<Sent>, wasSigned: bool, answer: Answer, looks: nat): Course {
      if wasSigned && ToldToWait(answer) then
        var last := service.answers(|sent|);
        Course(sent + [Sent(None, None, last)], if NotTaken(last) then FailedToConnect else Connected, looks)
      else Course(sent, Connected, looks)
    }

    /** What an answered request leads to: a signed one whose head moved is signed again, once, over the head then
        read. */
    function AnsweredCourse(sent: seq<Sent>, wasSigned: bool, wasHosted: bool, wasResigned: bool, answer: Answer,
                            looks: nat): Course
      reads this`key
    {
      if wasSigned && ToldHeadMoved(answer) && !wasResigned then
        var read := service.heads(looks);
        if !SignsAgain(read, wasHosted) then Course(sent, Connected, looks + 1)
        else
          var again := service.answers(|sent|);
          var more := sent + [Sent(Some(StatementOver(read.head)), None, again)];
          if NotTaken(again) then Course(more, FailedToConnect, looks + 1) else LastCourse(more, true, again, looks + 1)
      else LastCourse(sent, wasSigned, answer, looks)
    }

    /** What a connect leads to from its first request on. A hosted inception whose signature could not be verified
        is sent once more when the history names another hosted key than the one signed over, or none. */
    function SentCourse(opening: Option<Statement>, looks: nat): Course
      reads this`key
    {
      var first := service.answers(0);
      var sent := [Sent(opening, None, first)];
      if !NotTaken(first) then
        AnsweredCourse(sent, opening.Some?, opening.Some? && opening.value.InceptionOver?, false, first, looks)
      else if opening.Some? && opening.value.InceptionOver? && BadSignature(first) then
        var read := service.heads(looks);
        if !read.Read? || read.head.mode != Hosted || read.head.key == Some(opening.value.custody)
        then Course(sent, FailedToConnect, looks + 1)
        else
          var again := service.answers(1);
          var more := sent + [Sent(Some(Resent(opening.value, read.head)), None, again)];
          if NotTaken(again) then Course(more, FailedToConnect, looks + 1)
          else AnsweredCourse(more, true, true, true, again, looks + 1)
      else Course(sent, FailedToConnect, looks)
    }

    /** Told a first time: an answer that never came or a refusal ends it, but for a hosted inception's bad signature;
        a signed request told the service is not ready goes out unsigned; any other answer but a moved head is the
        last. */
    lemma FirstAnswerTells(opening: Option<Statement>, looks: nat)
      ensures var (a, b) := (service.answers(0), service.answers(1));
              var (course, one) := (SentCourse(opening, looks), Sent(opening, None, a));
              match a
              case Silence => course == Course([one], FailedToConnect, looks)
              case Refusal(trouble) =>
                opening.None? || !opening.value.InceptionOver? || !trouble.badSignature ==>
                  course == Course([one], FailedToConnect, looks)
              case NoResult => course == Course([one], Connected, looks)
              case Settled(move, _, _) =>
                if opening.None? || (move != Deferred(RotationNotReady) && move != Deferred(HeadMovedOn))
                then course == Course([one], Connected, looks)
                else move == Deferred(RotationNotReady) ==>
                       course == Course([one, Sent(None, None, b)],
                                        if b.Silence? || b.Refusal? then FailedToConnect else Connected, looks)
    {
    }

    /** What the one statement more leads to: `sent` is what went out before its answer. */
    ghost predicate LastTold(sent: seq<Sent>, answer: Answer, looks: nat, course: Course) {
      var next := service.answers(|sent|);
      match answer
      case Silence => course == Course(sent, FailedToConnect, looks)
      case Refusal(_) => course == Course(sent, FailedToConnect, looks)
      case NoResult => course == Course(sent, Connected, looks)
      case Settled(move, _, _) =>
        course == if move != Deferred(RotationNotReady) then Course(sent, Connected, looks)
                  else Course(sent + [Sent(None, None, next)],
                              if next.Silence? || next.Refusal? then FailedToConnect else Connected, looks)
    }

    /** Told that the head moved: the history is read once. Over a head of another key, or a hosted one whose key the
        history names, the statement over it goes out; over any other nothing more does. */
    lemma MovedHeadTells(opening: Statement, looks: nat)
      requires service.answers(0).Settled? && service.answers(0).move == Deferred(HeadMovedOn)
      ensures var (a, b, read) := (service.answers(0), service.answers(1), service.heads(looks));
              var (course, one) := (SentCourse(Some(opening), looks), Sent(Some(opening), None, a));
              if read.Read? && read.head.mode == Hosted && read.head.ours && read.head.key.Some?
              then LastTold([one, Sent(Some(InceptionOver(read.head.key.value)), None, b)], b, looks + 1, course)
              else if read.Read? && read.head.mode != Hosted && !opening.InceptionOver?
                      && read.head.key != Some(key) && read.head.Signable()
              then LastTold([one, Sent(Some(RecoveryOver(read.head)), None, b)], b, looks + 1, course)
              else course == Course([one], Connected, looks + 1)
    {
    }

    /** Told that a hosted inception's signature is bad: the history is read once. When it names another hosted key, or
        none, the statement goes out once more, over that key or as it was; else the refusal stands. */
    lemma BadSignatureTells(custody: Key, looks: nat)
      requires service.answers(0).Refusal? && service.answers(0).trouble.badSignature
      ensures var (a, b, read) := (service.answers(0), service.answers(1), service.heads(looks));
              var opening := InceptionOver(custody);
              var (course, one) := (SentCourse(Some(opening), looks), Sent(Some(opening), None, a));
              if read.Read? && read.head.mode == Hosted && read.head.key != Some(custody)
              then
                var names := read.head.ours && read.head.key.Some?;
                var again := if names then InceptionOver(read.head.key.value) else opening;
                LastTold([one, Sent(Some(again), None, b)], b, looks + 1, course)
              else course == Course([one], FailedToConnect, looks + 1)
    {
    }

    /** The whole course. An address or a history that cannot be read just now ends it before anything is sent. */
    function WholeCourse(selection: Selection): Course
      reads this`key
    {
      match selection
      case Unresolved(true) => Course([], FailedToConnect, 0)
      case At(_) =>
        (match service.heads(0)
         case Unreadable(true) => Course([], FailedToConnect, 1)
         case Read(h) => SentCourse(if SignsOver(h, key) then Some(StatementOver(h)) else None, 1)
         case _ => SentCourse(None, 1))
      case _ => SentCourse(None, 0)
    }

    /** Everything before the first send: the key, the plan, and the key stored. */
    method PrepareAdopt(selection: Selection) returns (ok: bool)
      requires Prepared() && !signed && !kept
      modifies this`addr, this`key, this`unstored, this`carries, this`signed, this`hosted, this`custody, this`kept
      modifies this`prior, this`looked, host
      ensures Leads(old(host.now), host.now) && Prepared()
      ensures ok ==> !unstored && OpensWith(selection, service.heads(old(looked)), key, carries)
      ensures ok && signed ==> (hosted <==> carries.value.InceptionOver?)
      ensures borrowed && KeyOnHost(old(host.now).disk, sel).None? ==> !ok
      ensures !borrowed ==> looked == old(looked) + if selection.At? then 1 else 0
      ensures host.sound && quiet && !borrowed && OpensUnsigned(selection, service.heads(old(looked)), key) ==>
                ok && carries.None?
      ensures selection == Unresolved(true) || (selection.At? && service.heads(old(looked)) == Unreadable(true)) ==> !ok
      ensures quiet && ok && signed && !hosted && key !in old(host.now).disk.moved ==> Unhindered(host.now.disk)
      ensures var known := KeyOnHost(old(host.now).disk, sel);
              known.Some? && OpensUnsigned(selection, service.heads(old(looked)), known.value) ==> ok && carries.None?
      ensures var read := service.heads(old(looked));
              host.sound && quiet && !borrowed && MustSign(old(host.now).disk, selection, read, sel, key) ==>
                ok && carries == Some(StatementOver(read.head))
    {
      hide Leads, Secured, SignsOver, CanSign;
      LeadsToItself(host.now);
      ok := PrepareIdentityKey();
      if !ok {
        return;
      }
      ghost var before := host.now;
      ok := PlanAdopt(selection);
      if !ok {
        return;
      }
      ghost var read := host.now;
      ok := StoreAdoptedKey();
      LeadsThrough(before, read, host.now);
    }

    /** The first send, and the one more a refusal of a hosted inception may lead to. */
    method SendAdopt() returns (answer: Answer)
      requires log == [] && !resigned && Prepared() && !unstored
      requires signed ==> (hosted <==> carries.value.InceptionOver?)
      modifies this`resigned, this`carries, this`proof, this`signed, this`hosted, this`custody, this`log
      modifies this`looked, host
      ensures Leads(old(host.now), host.now) && Prepared() && OnTrack(answer)
      ensures log[0].statement == old(carries)
      ensures !NotTaken(service.answers(0)) ==>
                log == [Sent(old(carries), None, answer)] && answer == service.answers(0) && looked == old(looked)
                && signed == old(signed) && hosted == old(hosted) && resigned == old(resigned)
                && (quiet ==> host.now.disk == old(host.now).disk)
      ensures NotTaken(service.answers(0)) && host.sound && !borrowed ==>
                var first := Sent(old(carries), None, service.answers(0));
                if old(carries).Some? && old(carries).value.InceptionOver? && BadSignature(first.answer)
                then looked == old(looked) + 1
                     && if old(CustodyMoved(service.heads(looked)))
                        then answer == service.answers(1) && signed && hosted && resigned
                             && var h := service.heads(old(looked)).head;
                                log == [first] + [Sent(Some(Resent(old(carries).value, h)), None, answer)]
                        else log == [first] && answer == first.answer
                else looked == old(looked) && log == [first] && answer == first.answer
    {
      hide Leads, Secured;
      ghost var before := host.now;
      answer := Connect();
      if NotTaken(answer) {
        ghost var read := host.now;
        answer := ResignHostedAdopt(answer);
        LeadsThrough(before, read, host.now);
      }
    }

    /** Everything from the first send on, over what was prepared. */
    method SendAndSettle() returns (ended: Ended)
      requires log == [] && !resigned && Prepared() && !unstored
      requires signed ==> (hosted <==> carries.value.InceptionOver?)
      modifies this`resigned, this`carries, this`proof, this`signed, this`hosted, this`custody, this`unstored
      modifies this`kept, this`prior, this`log, this`looked, host
      ensures Leads(old(host.now), host.now) && Heard() && NeverSilentlyUnsigned(log)
      ensures log != [] && log[0].statement == old(carries)
      ensures ended == Connected ==> !NotTaken(log[|log| - 1].answer)
      ensures host.sound && quiet && !borrowed && (old(signed && !hosted) ==> old(Unhindered(host.now.disk))) ==>
                Course(log, ended, looked) == SentCourse(old(carries), old(looked))
    {
      hide Leads, Secured, LastCourse, SignsAgain, StatementOver, Resent, NeverSilentlyUnsigned;
      ghost var before := host.now;
      var answer := SendAdopt();
      if NotTaken(answer) {
        SignedLogs(answer);
        return FailedToConnect;
      }
      ghost var read := host.now;
      ended := SettleAdopt(answer);
      LeadsThrough(before, read, host.now);
    }

    lemma SignedLogs(answer: Answer)
      requires OnTrack(answer)
      ensures NeverSilentlyUnsigned(log)
    {
      if signed {
        SignedLog(log);
      }
    }

    /** A recovery to sign over the head read is one no other recovery is in the way of, of a key that has not moved
        on itself. */
    predicate FreeToSign(d: Disk, selection: Selection)
      reads this`key
    {
      match service.heads(0)
      case Read(h) =>
        selection.At? && SignsOver(h, key) ==> CanSign(d, h, selection.addr, sel, key) && key !in d.moved
      case _ => true
    }

    /** The three ways a connect that is free to sign begins. */
    lemma CourseOpens(d: Disk, selection: Selection)
      requires FreeToSign(d, selection)
      ensures var read, looks := service.heads(0), if selection.At? then 1 else 0;
              if selection == Unresolved(true) || (selection.At? && read == Unreadable(true))
              then WholeCourse(selection) == Course([], FailedToConnect, looks)
              else if OpensUnsigned(selection, read, key) then WholeCourse(selection) == SentCourse(None, looks)
              else MustSign(d, selection, read, sel, key) && (read.head.mode != Hosted ==> key !in d.moved)
                   && WholeCourse(selection) == SentCourse(Some(StatementOver(read.head)), looks)
    {
      hide SentCourse, OtherPending;
    }

    /** The whole connect. Against any service it sends at most three times, and what was answered is what is
        read. It opens over the head it read, or unsigned. It does go out unsigned when this host has the key and
        nothing is to be signed, and signed when there is something to sign and every write is done. An unsigned
        send after a signed one is the last, right after that was told to wait. Undisturbed and with every write
        done, the service's answers decide its whole course. */
    method ConnectTierEnvelope(selection: Selection) returns (ended: Ended)
      requires log == [] && !signed && !resigned && !kept && Prepared()
      modifies this, host
      ensures Leads(old(host.now), host.now)
      ensures |log| <= 3
      ensures forall i | 0 <= i < |log| :: log[i].answer == service.answers(i) && log[i].proof.None?
      ensures forall i, j | 0 <= i < j < |log| && (log[i].statement.None? || log[j].statement.None?) ::
                log[i].statement.Some? && j == |log| - 1 && ToldToWait(log[j - 1].answer)
      ensures log != [] ==> OpensWith(selection, service.heads(old(looked)), key, log[0].statement)
      ensures borrowed && KeyOnHost(old(host.now).disk, sel).None? ==> log == [] && ended == FailedToConnect
      ensures var known := KeyOnHost(old(host.now).disk, sel);
              known.Some? && OpensUnsigned(selection, service.heads(old(looked)), known.value) ==>
                log != [] && log[0].statement.None?
      ensures var read := service.heads(old(looked));
              host.sound && quiet && !borrowed && MustSign(old(host.now).disk, selection, read, sel, key) ==>
                log != [] && log[0].statement == Some(StatementOver(read.head))
      ensures ended == Connected ==> log != [] && (log[|log| - 1].answer.NoResult? || log[|log| - 1].answer.Settled?)
      ensures host.sound && quiet && !borrowed && old(looked) == 0 && FreeToSign(old(host.now).disk, selection) ==>
                Course(log, ended, looked) == WholeCourse(selection)
    {
      hide Leads, Secured, OpensWith, OpensUnsigned, KeyOnHost, MustSign, ToldToWait;
      hide WholeCourse, SentCourse, FreeToSign, Unhindered;
      LeadsToItself(host.now);
      ghost var before := host.now;
      var prepared := PrepareAdopt(selection);
      if FreeToSign(before.disk, selection) {
        CourseOpens(before.disk, selection);
      }
      if !prepared {
        return FailedToConnect;
      }
      ghost var read := host.now;
      ended := SendAndSettle();
      LeadsThrough(before, read, host.now);
      UnsignedIsLast(log);
    }
  }
}
