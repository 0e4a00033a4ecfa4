/**
 The key-move half of the identity commands: the durable key store, the chain of key events the
 service keeps, and the decisions `rotate` and the sealed-chain `commit` make over them.

 A key is named by how this host came to hold it. `NextOf(k)` is the pre-committed next key of `k`,
 which lives in a file named for `k`, is created once and never changed; it exists on disk exactly
 when `k` is in `Disk.nexts`. A digest or commitment is modelled as the value it digests, so it is
 injective, and a signed statement is the event it asks the service to append.
 */
module KeyMoves {
  import opened Wrappers

  datatype Key = Minted(id: nat) | NextOf(of: Key)

  datatype Prior = Genesis | After(event: Event)

  datatype Kind = Icp | Rot | Ric | Rcv

  datatype Event = Event(sequence: nat, prior: Prior, kind: Kind, key: Key, next: Option<Key>) {
    predicate Sealed() {
      next.None?
    }
  }

  datatype Mode = Hosted | Sealed | Committed

  /** What an answer says about the chain: its head, and whether the ref it names is this address's. */
  datatype Head = Head(mode: Mode, sequence: Option<nat>, event: Option<Event>, key: Option<Key>, ours: bool) {
    predicate Signable() {
      sequence.Some? && event.Some? && ours
    }
  }

  /** A whole key history as read: every page's events, and the head the first page named. */
  datatype History = History(events: seq<Event>, head: Head)

  datatype Code = HeadMoved | OtherCode

  /** An answer whose status is one the request counts as done, or a refusal. */
  datatype Reply = Answered(head: Head) | Refused(code: Code)

  // ----- the durable key store ------------------------------------------------------------

  type Handle = string

  /** The pointer files of pending recoveries: named for a handle, or for the key being replaced. */
  datatype Pointer = OfHandle(handle: Handle) | OfKey(key: Key)

  datatype Disk = Disk(
    handles: map<Handle, Key>,
    kept: set<Key>,
    nexts: set<Key>,
    moved: map<Key, Key>,
    rotating: set<Key>,
    pending: map<Pointer, Key>)

  /** The bound on the walk along recorded moves. */
  const MAX_MOVES: nat := 1024

  predicate OnDisk(d: Disk, k: Key) {
    k in d.handles.Values || k in d.kept || (k.NextOf? && k.of in d.nexts)
  }

  function Follow(d: Disk, k: Key, fuel: nat): Key
    decreases fuel
  {
    if fuel == 0 || k !in d.moved || d.moved[k] !in d.kept then k else Follow(d, d.moved[k], fuel - 1)
  }

  function Load(d: Disk, h: Handle): Option<Key> {
    if h in d.handles then Some(Follow(d, d.handles[h], MAX_MOVES)) else None
  }

  /** Durable, and the same key every time: the file is created once. */
  function EnsureNext(d: Disk, k: Key): Disk {
    d.(nexts := d.nexts + {k})
  }

  function MarkRotating(d: Disk, k: Key): Disk {
    d.(rotating := d.rotating + {k})
  }

  /** A key moves once: the same move again is success, another one is refused. */
  function RecordMove(d: Disk, from: Key, to: Key): Result<Disk, ()> {
    var stored := d.(kept := d.kept + {to});
    if from !in d.moved then Ok(stored.(moved := d.moved[from := to]))
    else if d.moved[from] == to then Ok(stored)
    else Err(())
  }

  /** The committed next key, once a rotation that reveals it was sent. */
  function Revealed(d: Disk, cur: Key): Option<Key> {
    if cur in d.nexts && cur in d.rotating then Some(NextOf(cur)) else None
  }

  // ----- the service's chain --------------------------------------------------------------

  /** The walk's rules for one more event on a chain that has one. */
  predicate Accepts(chain: seq<Event>, m: Event) {
    && chain != []
    && var last := chain[|chain| - 1];
    && m.sequence == last.sequence + 1
    && m.prior == After(last)
    && match m.kind
       case Icp => false
       case Rot => last.next == Some(m.key)
       case Ric => last.Sealed() && m.key == last.key && m.next.Some?
       case Rcv => true
  }

  function Served(chain: seq<Event>, m: Event): seq<Event> {
    if Accepts(chain, m) then chain + [m] else chain
  }

  /** A history that walks, with the held key before its head and the other at its head. */
  predicate MoveInLog(events: seq<Event>, cur: Key, succ: Key) {
    && events != [] && events[0].kind == Icp && events[|events| - 1].key == succ
    && (forall i | 0 < i < |events| :: Accepts(events[..i], events[i]))
    && exists i | 0 <= i < |events| - 1 :: events[i].key == cur
  }

  /** Such a history begins an identity, numbers and links its events in turn, reveals by rotation only what was
      committed to, and has both keys. */
  lemma MoveIsWalked(events: seq<Event>, cur: Key, succ: Key)
    requires MoveInLog(events, cur, succ)
    ensures |events| >= 2 && events[0].kind == Icp && events[|events| - 1].key == succ
    ensures exists i | 0 <= i < |events| - 1 :: events[i].key == cur
    ensures forall i | 0 < i < |events| ::
              var (last, m) := (events[i - 1], events[i]);
              && m.sequence == last.sequence + 1 && m.prior == After(last) && m.kind != Icp
              && (m.kind == Rot ==> last.next == Some(m.key))
  {
    forall i | 0 < i < |events| ensures Accepts(events[..i], events[i]) && events[..i][i - 1] == events[i - 1] {
    }
  }

  function HeadOf(log: seq<Event>): Head {
    if log == [] then Head(Hosted, None, None, None, true)
    else
      var last := log[|log| - 1];
      Head(if last.Sealed() then Sealed else Committed, Some(last.sequence), Some(last), Some(last.key), true)
  }

  /** A step that landed before, sent again, is answered unchanged; anything else must extend the head. */
  function Answer(chain: seq<Event>, m: Event): Reply {
    if m in chain || Accepts(chain, m) then Answered(HeadOf(Served(chain, m))) else Refused(HeadMoved)
  }

  // ----- what rotate decides --------------------------------------------------------------

  datatype Refusal = ChainHosted | NoEvent | Pinned | CommitmentMismatch | NotSignable
                   | Unconfirmed | Lost | AlreadyMoved | KeptMoving | OtherNextKey | NotHeld

  datatype Decision = Refuse(why: Refusal) | CommitFirst(head: Head) | Reveal(head: Head, landed: bool)

  function EventAt(events: seq<Event>, sequence: nat): Option<Event> {
    if events == [] then None
    else if events[0].sequence == sequence then Some(events[0])
    else EventAt(events[1..], sequence)
  }

  /** Whether the head is this host's own rotation, landed with its answer lost, and what it replaced. */
  function Landed(d: Disk, cur: Key, h: History): Option<Event>
    requires h.events != []
  {
    var last := h.events[|h.events| - 1];
    if cur in d.nexts && h.head.key == Some(NextOf(cur)) && last.sequence > 0
    then EventAt(h.events, last.sequence - 1) else None
  }

  function Decide(d: Disk, cur: Key, h: History): Decision {
    if h.head.mode == Hosted then Refuse(ChainHosted)
    else if h.events == [] then Refuse(NoEvent)
    else
      var landed := Landed(d, cur, h);
      var last := if landed.Some? then landed.value else h.events[|h.events| - 1];
      var head := if landed.Some?
                  then Head(Committed, Some(last.sequence), Some(last), Some(cur), h.head.ours) else h.head;
      if head.key != Some(cur) then Refuse(Pinned)
      else if last.Sealed() then CommitFirst(head)
      else if cur !in d.nexts || last.next != Some(NextOf(cur)) then Refuse(CommitmentMismatch)
      else if !head.Signable() then Refuse(NotSignable)
      else Reveal(head, landed.Some?)
  }

  function StatementFor(kind: Kind, h: Head, key: Key, next: Key): Event
    requires h.Signable()
  {
    Event(h.sequence.value + 1, After(h.event.value), kind, key, Some(next))
  }

  function Rotation(h: Head, cur: Key): Event
    requires h.Signable()
  {
    StatementFor(Rot, h, NextOf(cur), NextOf(NextOf(cur)))
  }

  /** And a rotation from the key at a walked history's head is a move in the history it leaves. */
  lemma RotationIsAMove(events: seq<Event>, cur: Key)
    requires events != [] && events[0].kind == Icp && HeadOf(events).Signable()
    requires forall i | 0 < i < |events| :: Accepts(events[..i], events[i])
    requires events[|events| - 1].key == cur && events[|events| - 1].next == Some(NextOf(cur))
    ensures MoveInLog(Served(events, Rotation(HeadOf(events), cur)), cur, NextOf(cur))
  {
    var m := Rotation(HeadOf(events), cur);
    var more := events + [m];
    assert Accepts(events, m);
    forall i | 0 < i < |more| ensures Accepts(more[..i], more[i]) {
      assert more[..i] == if i < |events| then events[..i] else events;
    }
    assert more[|events| - 1].key == cur;
  }

  function Commitment(h: Head, cur: Key): Event
    requires h.Signable()
  {
    StatementFor(Ric, h, cur, NextOf(cur))
  }

  // ----- one run of rotate, a connect's own commit, or its heal, one action at a time ---------------

  datatype Outcome = Rotated(key: Key) | ChainCommitted | Failed(why: Refusal)

  /** The points at which another process can run: before every read, durable write and send. */
  datatype Proc =
    | RotateRead(cur: Key, attempt: nat)
    | RotateMint(cur: Key, attempt: nat, head: Head, landed: bool)
    | RotateMark(cur: Key, attempt: nat, head: Head, landed: bool)
    | RotateSend(cur: Key, attempt: nat, head: Head, landed: bool)
    | RotateWait(cur: Key, attempt: nat, landed: bool, sent: Event)
    | RotateRecord(cur: Key)
    | CommitMint(cur: Key, head: Head, back: Option<nat>)
    | CommitSend(cur: Key, head: Head, again: bool, back: Option<nat>)
    | CommitWait(cur: Key, again: bool, back: Option<nat>, sent: Event)
    | CommitReread(cur: Key, back: Option<nat>)
    | HealRead(cur: Key)
    | Ended(outcome: Outcome)

  datatype Input = Go | Page(history: History) | Heard(reply: Reply)

  /** The rotate loop makes at most two attempts. */
  function NextAttempt(cur: Key, attempt: nat): Proc {
    if attempt == 0 then RotateRead(cur, 1) else Ended(Failed(KeptMoving))
  }

  /** A rotate that committed first goes round its loop again; a connect's own commit is done. */
  function AfterCommit(cur: Key, back: Option<nat>): Proc {
    match back
    case Some(attempt) => NextAttempt(cur, attempt)
    case None => Ended(ChainCommitted)
  }

  /** What a rotate does with a history. */
  function Decided(d: Disk, cur: Key, attempt: nat, h: History): Proc {
    match Decide(d, cur, h)
    case Refuse(why) => Ended(Failed(why))
    case CommitFirst(head) => CommitMint(cur, head, Some(attempt))
    case Reveal(head, landed) => RotateMint(cur, attempt, head, landed)
  }

  /** A moved head is read again once, and never after a rewind; only an answer naming the key is done. */
  function RotateHeard(cur: Key, attempt: nat, landed: bool, reply: Reply): Proc {
    match reply
    case Refused(code) =>
      if code == HeadMoved && attempt == 0 && !landed then NextAttempt(cur, attempt) else Ended(Failed(Lost))
    case Answered(got) =>
      if got.mode == Committed && got.key == Some(NextOf(cur)) then RotateRecord(cur) else Ended(Failed(Unconfirmed))
  }

  function CommitHeard(cur: Key, again: bool, back: Option<nat>, reply: Reply): Proc {
    match reply
    case Refused(code) => if code == HeadMoved && !again then CommitReread(cur, back) else Ended(Failed(Lost))
    case Answered(got) => if got.mode == Committed then AfterCommit(cur, back) else Ended(Failed(Unconfirmed))
  }

  /** Another run of this host may have committed first, to this very next key. */
  function CommitRetried(cur: Key, back: Option<nat>, h: History): Proc {
    if h.head.mode != Committed then CommitSend(cur, h.head, true, back)
    else if h.events != [] && h.events[|h.events| - 1].next == Some(NextOf(cur)) then AfterCommit(cur, back)
    else Ended(Failed(OtherNextKey))
  }

  /** One action of one process: what becomes of the store and of the process. */
  function Advance(d: Disk, p: Proc, input: Input): (r: (Disk, Proc)) {
    match (p, input)
    case (RotateRead(cur, attempt), Page(h)) => (d, Decided(d, cur, attempt, h))
    case (RotateMint(cur, attempt, head, landed), Go) =>
      (EnsureNext(d, NextOf(cur)), RotateMark(cur, attempt, head, landed))
    case (RotateMark(cur, attempt, head, landed), Go) =>
      (MarkRotating(d, cur), RotateSend(cur, attempt, head, landed))
    case (RotateSend(cur, attempt, head, landed), Go) =>
      (d, if head.Signable() then RotateWait(cur, attempt, landed, Rotation(head, cur))
          else Ended(Failed(NotSignable)))
    case (RotateWait(cur, attempt, landed, _), Heard(reply)) => (d, RotateHeard(cur, attempt, landed, reply))
    case (RotateRecord(cur), Go) =>
      (match RecordMove(d, cur, NextOf(cur))
       case Ok(d') => (d', Ended(Rotated(NextOf(cur))))
       case Err(_) => (d, Ended(Failed(AlreadyMoved))))
    case (CommitMint(cur, head, back), Go) => (EnsureNext(d, cur), CommitSend(cur, head, false, back))
    case (CommitSend(cur, head, again, back), Go) =>
      (d, if !head.Signable() then Ended(Failed(NotSignable))
          else if head.key != Some(cur) then Ended(Failed(Pinned))
          else CommitWait(cur, again, back, Commitment(head, cur)))
    case (CommitWait(cur, again, back, _), Heard(reply)) => (d, CommitHeard(cur, again, back, reply))
    case (CommitReread(cur, back), Page(h)) => (d, CommitRetried(cur, back, h))
    case (HealRead(cur), Page(h)) =>
      (d, if MoveInLog(h.events, cur, NextOf(cur)) then RotateRecord(cur) else Ended(Failed(Unconfirmed)))
    case _ => (d, p)
  }

  /** The statement a process puts on the wire when it takes this action, if it sends one. */
  function Sends(p: Proc, p': Proc): Option<Event> {
    match (p, p')
    case (RotateSend(_, _, _, _), RotateWait(_, _, _, m)) => Some(m)
    case (CommitSend(_, _, _, _), CommitWait(_, _, _, m)) => Some(m)
    case _ => None
  }
}
